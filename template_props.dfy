/**
 * What data_template_new_from_string guarantees, proved about the functions
 * of module Template: names stay unique because lookup comes before
 * creation, rigid groups only hold known panels, a rejection is never
 * withdrawn, and a template that is returned passes every check.
 */
module TemplateProps {
  import opened Wrappers
  import opened Text
  import opened Direction
  import opened Geometry
  import opened Fields
  import opened Template

  // ---------------------------------------------------------------------
  // The invariant of the line loop
  // ---------------------------------------------------------------------

  /** Names unique per kind, groups holding known panels, no collection yet. */
  predicate ParseInv(st: ParseState) {
    && Distinct(PanelNames(st.dt.panels))
    && Distinct(BadNames(st.dt.bad))
    && Distinct(GroupNames(st.dt.groups))
    && MembersIn(st.dt.groups, |st.dt.panels|)
    && st.dt.collections == []
  }

  lemma StartInv()
    ensures ParseInv(StartState)
  {
  }

  // ---------------------------------------------------------------------
  // Lookup before creation
  // ---------------------------------------------------------------------

  /** find_panel_by_name then new_panel: an existing panel is found at its first occurrence; a new name adds a copy of the defaults at the end. */
  lemma FindOrAddPanelFacts(ps: seq<Panel>, defaults: Panel, name: string)
    ensures FindOrAddPanel(ps, defaults, name).0[..|ps|] == ps
    ensures name in PanelNames(ps) <==> |FindOrAddPanel(ps, defaults, name).0| == |ps|
    ensures name in PanelNames(ps) ==> name !in PanelNames(ps)[..FindOrAddPanel(ps, defaults, name).1]
    ensures name !in PanelNames(ps) ==> FindOrAddPanel(ps, defaults, name) == (ps + [defaults.(name := name)], |ps|)
  {
  }

  /** find_bad_region_by_name then new_bad_region. */
  lemma FindOrAddBadFacts(bs: seq<BadRegion>, name: string)
    ensures FindOrAddBad(bs, name).0[..|bs|] == bs
    ensures name in BadNames(bs) <==> |FindOrAddBad(bs, name).0| == |bs|
    ensures name in BadNames(bs) ==> name !in BadNames(bs)[..FindOrAddBad(bs, name).1]
    ensures name !in BadNames(bs) ==> FindOrAddBad(bs, name) == (bs + [NewBadRegion(name)], |bs|)
  {
  }

  /** find_or_add_rg: an existing group is found at its first occurrence; a new name adds an empty group at the end. */
  lemma FindOrAddGroupFacts(gs: seq<RigidGroup>, name: string)
    ensures FindOrAddGroup(gs, name).0[..|gs|] == gs
    ensures name in GroupNames(gs) <==> |FindOrAddGroup(gs, name).0| == |gs|
    ensures name in GroupNames(gs) ==> name !in GroupNames(gs)[..FindOrAddGroup(gs, name).1]
    ensures name !in GroupNames(gs) ==> FindOrAddGroup(gs, name) == (gs + [RigidGroup(name, [])], |gs|)
  {
  }

  /** find_or_add_rg_coll, likewise. */
  lemma FindOrAddCollectionFacts(cs: seq<Collection>, name: string)
    ensures FindOrAddCollection(cs, name).0[..|cs|] == cs
    ensures name in CollectionNames(cs) <==> |FindOrAddCollection(cs, name).0| == |cs|
    ensures name in CollectionNames(cs) ==> name !in CollectionNames(cs)[..FindOrAddCollection(cs, name).1]
    ensures name !in CollectionNames(cs) ==> FindOrAddCollection(cs, name) == (cs + [Collection(name, [])], |cs|)
  {
  }

  lemma DistinctSnoc(names: seq<string>, name: string)
    requires Distinct(names) && name !in names
    ensures Distinct(names + [name])
  {
  }

  lemma PanelNamesSnoc(ps: seq<Panel>, p: Panel)
    ensures PanelNames(ps + [p]) == PanelNames(ps) + [p.name]
  {
    assert PanelNames(ps + [p]) == PanelNames(ps) + [p.name];
  }

  /** Looking a panel up before adding it keeps the panel names unique. */
  lemma FindOrAddPanelDistinct(ps: seq<Panel>, defaults: Panel, name: string)
    requires Distinct(PanelNames(ps))
    ensures Distinct(PanelNames(FindOrAddPanel(ps, defaults, name).0))
  {
    var r := FindOrAddPanel(ps, defaults, name);
    FindOrAddPanelFacts(ps, defaults, name);
    if |r.0| > |ps| {
      assert r.0 == ps + [r.0[|ps|]];
      PanelNamesSnoc(ps, r.0[|ps|]);
      DistinctSnoc(PanelNames(ps), name);
    }
  }

  lemma FindOrAddBadDistinct(bs: seq<BadRegion>, name: string)
    requires Distinct(BadNames(bs))
    ensures Distinct(BadNames(FindOrAddBad(bs, name).0))
  {
    var r := FindOrAddBad(bs, name);
    FindOrAddBadFacts(bs, name);
    if |r.0| > |bs| {
      assert r.0 == bs + [r.0[|bs|]];
      assert BadNames(r.0) == BadNames(bs) + [name];
      DistinctSnoc(BadNames(bs), name);
    }
  }

  lemma FindOrAddGroupDistinct(gs: seq<RigidGroup>, name: string)
    requires Distinct(GroupNames(gs))
    ensures Distinct(GroupNames(FindOrAddGroup(gs, name).0))
  {
    var r := FindOrAddGroup(gs, name);
    FindOrAddGroupFacts(gs, name);
    if |r.0| > |gs| {
      assert r.0 == gs + [r.0[|gs|]];
      assert GroupNames(r.0) == GroupNames(gs) + [name];
      DistinctSnoc(GroupNames(gs), name);
    }
  }

  lemma FindOrAddCollectionDistinct(cs: seq<Collection>, name: string)
    requires Distinct(CollectionNames(cs))
    ensures Distinct(CollectionNames(FindOrAddCollection(cs, name).0))
  {
    var r := FindOrAddCollection(cs, name);
    FindOrAddCollectionFacts(cs, name);
    if |r.0| > |cs| {
      assert r.0 == cs + [r.0[|cs|]];
      assert CollectionNames(r.0) == CollectionNames(cs) + [name];
      DistinctSnoc(CollectionNames(cs), name);
    }
  }

  /** Joining a group keeps group names unique and groups holding known panels. */
  lemma JoinGroupInv(gs: seq<RigidGroup>, name: string, pi: nat, n: nat)
    requires Distinct(GroupNames(gs)) && MembersIn(gs, n) && pi < n
    ensures Distinct(GroupNames(JoinGroup(gs, name, pi)))
    ensures MembersIn(JoinGroup(gs, name, pi), n)
  {
    FindOrAddGroupDistinct(gs, name);
    var (g, gi) := FindOrAddGroup(gs, name);
    var r := AddToGroup(g, gi, pi);
    AddToGroupNames(g, gi, pi);
    forall i, k | 0 <= i < |r| && 0 <= k < |r[i].panels|
      ensures r[i].panels[k] < n
    {
      if i == gi {
        if k < |g[gi].panels| {
          assert r[i].panels[k] == g[gi].panels[k];
        }
      }
    }
  }

  lemma GroupsGrow(gs: seq<RigidGroup>, n: nat, m: nat)
    requires MembersIn(gs, n) && n <= m
    ensures MembersIn(gs, m)
  {
  }

  lemma BadLineInv(st: ParseState, obj: string, k: BadKey, val: string)
    requires ParseInv(st)
    ensures ParseInv(BadLine(st, obj, k, val))
  {
    FindOrAddBadDistinct(st.dt.bad, obj);
  }

  lemma PanelLineInv(st: ParseState, obj: string, k: PanelKey, val: string, h: DimHelpers)
    requires ParseInv(st)
    ensures ParseInv(PanelLine(st, obj, k, val, h))
  {
    FindOrAddPanelDistinct(st.dt.panels, st.dt.defaults, obj);
    FindOrAddPanelFacts(st.dt.panels, st.dt.defaults, obj);
    var (ps, i) := FindOrAddPanel(st.dt.panels, st.dt.defaults, obj);
    GroupsGrow(st.dt.groups, |st.dt.panels|, |ps|);
    var u := PanelField(ps[i], k, val, h);
    if u.group.Some? {
      JoinGroupInv(st.dt.groups, u.group.value, i, |ps|);
    }
  }

  /** Each line keeps the invariant. */
  lemma ApplyLineInv(st: ParseState, raw: string, h: DimHelpers)
    requires ParseInv(st)
    ensures ParseInv(ApplyLine(st, raw, h))
  {
    match ClassifyLine(raw)
    case Blank =>
    case NoEquals =>
    case TopLine(key, val) =>
    case ObjectLine(obj, key, val) =>
      if StartsWith(obj, "bad") {
        BadLineInv(st, obj, BadKeyOf(key), val);
      } else {
        PanelLineInv(st, obj, PanelKeyOf(key), val, h);
      }
  }

  lemma {:induction false} ParseAllInv(st: ParseState, ls: seq<string>, h: DimHelpers)
    requires ParseInv(st)
    ensures ParseInv(ParseAll(st, ls, h))
    decreases |ls|
  {
    if ls != [] {
      ApplyLineInv(st, ls[0], h);
      ParseAllInv(ApplyLine(st, ls[0], h), ls[1..], h);
    }
  }

  // ---------------------------------------------------------------------
  // reject
  // ---------------------------------------------------------------------

  /** No line clears `reject`. */
  lemma ApplyLineKeepsReject(st: ParseState, raw: string, h: DimHelpers)
    requires st.reject
    ensures ApplyLine(st, raw, h).reject
  {
    match ClassifyLine(raw)
    case Blank =>
    case NoEquals =>
    case TopLine(key, val) =>
    case ObjectLine(obj, key, val) =>
      if StartsWith(obj, "bad") {
        assert ApplyLine(st, raw, h) == BadLine(st, obj, BadKeyOf(key), val);
      } else {
        assert ApplyLine(st, raw, h) == PanelLine(st, obj, PanelKeyOf(key), val, h);
      }
  }

  lemma {:induction false} ParseAllKeepsReject(st: ParseState, ls: seq<string>, h: DimHelpers)
    requires st.reject
    ensures ParseAll(st, ls, h).reject
    decreases |ls|
  {
    if ls != [] {
      ApplyLineKeepsReject(st, ls[0], h);
      ParseAllKeepsReject(ApplyLine(st, ls[0], h), ls[1..], h);
    }
  }

  /** The loop over the first i lines, then over the rest. */
  lemma {:induction false} ParseAllSplit(st: ParseState, ls: seq<string>, i: nat, h: DimHelpers)
    requires i <= |ls|
    ensures ParseAll(st, ls, h) == ParseAll(ParseAll(st, ls[..i], h), ls[i..], h)
    decreases i
  {
    if i > 0 {
      assert ls[..i][1..] == ls[1..][..i - 1];
      assert ls[i..] == ls[1..][i - 1..];
      ParseAllSplit(ApplyLine(st, ls[0], h), ls[1..], i - 1, h);
    }
  }

  /** A top-level line never rejects; a line without '=' or with nothing before its comment changes nothing. */
  lemma TopLevelNeverRejects(st: ParseState, raw: string, h: DimHelpers)
    requires ClassifyLine(raw).TopLine? || ClassifyLine(raw).NoEquals? || ClassifyLine(raw).Blank?
    ensures ApplyLine(st, raw, h).reject == st.reject
    ensures !ClassifyLine(raw).TopLine? ==> ApplyLine(st, raw, h) == st
  {
  }

  /** A panel line whose value is refused (a data or mask path not starting with '/', or an invalid direction) rejects. */
  lemma PanelLineRejects(st: ParseState, raw: string, h: DimHelpers)
    requires ClassifyLine(raw).ObjectLine? && !StartsWith(ClassifyLine(raw).obj, "bad")
    ensures ApplyLine(st, raw, h).reject <==> st.reject || RejectingValue(PanelKeyOf(ClassifyLine(raw).key), ClassifyLine(raw).val)
  {
    var l := ClassifyLine(raw);
    var (ps, i) := FindOrAddPanel(st.dt.panels, st.dt.defaults, l.obj);
    PanelFieldRejects(ps[i], PanelKeyOf(l.key), l.val, h);
  }

  /** The checks never clear `reject`, and a rejected state resolves to no template. */
  lemma RejectedStateFails(st: ParseState, h: DimHelpers)
    requires st.reject
    ensures Resolve(Validate(st, h)).None?
  {
    var v := Validate(st, h);
    assert v.reject;
  }

  /** A rejection after the whole line loop means no template. */
  lemma ParsedRejectFailsBuild(s: string, h: DimHelpers)
    requires ParseAll(StartState, Lines(Normalise(s)), h).reject
    ensures Build(s, h).None?
  {
    RejectedStateFails(ParseAll(StartState, Lines(Normalise(s)), h), h);
  }

  /** A rejection raised by the first i lines survives the remaining ones. */
  lemma PrefixRejectPersists(s: string, h: DimHelpers, i: nat)
    requires i <= |Lines(Normalise(s))|
    requires ParseAll(StartState, Lines(Normalise(s))[..i], h).reject
    ensures ParseAll(StartState, Lines(Normalise(s)), h).reject
  {
    var ls := Lines(Normalise(s));
    ParseAllSplit(StartState, ls, i, h);
    ParseAllKeepsReject(ParseAll(StartState, ls[..i], h), ls[i..], h);
  }

  /** Once the lines read so far reject, no template is returned, whatever follows. */
  lemma RejectedPrefixFailsBuild(s: string, h: DimHelpers, i: nat)
    requires i <= |Lines(Normalise(s))|
    requires ParseAll(StartState, Lines(Normalise(s))[..i], h).reject
    ensures Build(s, h).None?
  {
    PrefixRejectPersists(s, h, i);
    ParsedRejectFailsBuild(s, h);
  }

  /** The first mention of a panel creates it as a copy of the defaults as they stand, then applies the field. */
  lemma NewPanelCopiesDefaults(st: ParseState, obj: string, k: PanelKey, val: string, h: DimHelpers)
    requires obj !in PanelNames(st.dt.panels)
    ensures |PanelLine(st, obj, k, val, h).dt.panels| == |st.dt.panels| + 1
    ensures PanelLine(st, obj, k, val, h).dt.panels[|st.dt.panels|]
      == PanelField(st.dt.defaults.(name := obj), k, val, h).panel
    ensures PanelLine(st, obj, k, val, h).dt.panels[..|st.dt.panels|] == st.dt.panels
  {
    FindOrAddPanelFacts(st.dt.panels, st.dt.defaults, obj);
  }

  // ---------------------------------------------------------------------
  // Lines
  // ---------------------------------------------------------------------

  /** Splitting at newlines loses nothing: joining the lines gives the text back. */
  lemma {:induction false} LinesJoin(s: string)
    ensures JoinLines(Lines(s)) == s
    decreases |s|
  {
    match IndexOf(s, '\n')
    case None =>
    case Some(k) =>
      LinesJoin(s[k + 1..]);
      assert Lines(s)[1..] == Lines(s[k + 1..]);
      assert s == s[..k] + "\n" + s[k + 1..];
  }

  /** Normalising leaves no '\r', so every line is free of both line-end characters. */
  lemma LinesOfNormalised(s: string, i: nat)
    requires i < |Lines(Normalise(s))|
    ensures '\n' !in Lines(Normalise(s))[i] && '\r' !in Lines(Normalise(s))[i]
  {
    LinesFrom(Normalise(s), i);
  }

  lemma {:induction false} LinesFrom(s: string, i: nat)
    requires '\r' !in s && i < |Lines(s)|
    ensures '\r' !in Lines(s)[i]
    decreases |s|
  {
    match IndexOf(s, '\n')
    case None =>
    case Some(k) =>
      if i > 0 {
        NotInSlice(s, '\r', k + 1, |s|);
        LinesFrom(s[k + 1..], i - 1);
      } else {
        NotInSlice(s, '\r', 0, k);
      }
  }

  lemma NotInSlice(s: string, c: char, lo: nat, hi: nat)
    requires lo <= hi <= |s| && c !in s
    ensures c !in s[lo..hi]
  {
    assert forall j :: 0 <= j < hi - lo ==> s[lo..hi][j] == s[lo + j];
  }

  // ---------------------------------------------------------------------
  // Groups after the checks
  // ---------------------------------------------------------------------

  lemma {:induction false} ResolveGroupsInv(gs: seq<RigidGroup>, ps: seq<Panel>, defs: seq<GroupDef>)
    requires Distinct(GroupNames(gs)) && MembersIn(gs, |ps|)
    requires ResolveGroups(gs, ps, defs).Some?
    ensures Distinct(GroupNames(ResolveGroups(gs, ps, defs).value))
    ensures MembersIn(ResolveGroups(gs, ps, defs).value, |ps|)
  {
    if defs != [] {
      ResolveGroupsInv(gs, ps, defs[..|defs| - 1]);
      var g := ResolveGroups(gs, ps, defs[..|defs| - 1]).value;
      var d := defs[|defs| - 1];
      FindOrAddGroupDistinct(g, d.name);
      var (g1, gi) := FindOrAddGroup(g, d.name);
      assert MembersIn(g1, |ps|) by {
        forall i, k | 0 <= i < |g1| && 0 <= k < |g1[i].panels| ensures g1[i].panels[k] < |ps| {
          if i < |g| { assert g1[i] == g[i]; }
        }
      }
    }
  }

  lemma {:induction false} ResolveCollectionsInv(cs: seq<Collection>, gs: seq<RigidGroup>, defs: seq<GroupDef>)
    requires Distinct(CollectionNames(cs)) && GroupsIn(cs, |gs|)
    requires ResolveCollections(cs, gs, defs).Some?
    ensures Distinct(CollectionNames(ResolveCollections(cs, gs, defs).value))
    ensures GroupsIn(ResolveCollections(cs, gs, defs).value, |gs|)
    ensures defs != [] ==> |ResolveCollections(cs, gs, defs).value| >= 1
  {
    if defs != [] {
      ResolveCollectionsInv(cs, gs, defs[..|defs| - 1]);
      var c := ResolveCollections(cs, gs, defs[..|defs| - 1]).value;
      var d := defs[|defs| - 1];
      FindOrAddCollectionDistinct(c, d.name);
      var (c1, ci) := FindOrAddCollection(c, d.name);
      assert GroupsIn(c1, |gs|) by {
        forall i, k | 0 <= i < |c1| && 0 <= k < |c1[i].groups| ensures c1[i].groups[k] < |gs| {
          if i < |c| { assert c1[i] == c[i]; }
        }
      }
    }
  }

  lemma {:induction false} SynthGroupsInv(gs: seq<RigidGroup>, ps: seq<Panel>, k: nat)
    requires k <= |ps| && Distinct(GroupNames(gs)) && MembersIn(gs, |ps|)
    ensures Distinct(GroupNames(SynthGroups(gs, ps, k))) && MembersIn(SynthGroups(gs, ps, k), |ps|)
    decreases |ps| - k
  {
    if k < |ps| {
      JoinGroupInv(gs, ps[k].name, k, |ps|);
      SynthGroupsInv(JoinGroup(gs, ps[k].name, k), ps, k + 1);
    }
  }

  /** The groups named after panels 0..k-1, each holding only its panel. */
  function OwnGroups(ps: seq<Panel>, k: nat): (r: seq<RigidGroup>)
    requires k <= |ps|
    ensures |r| == k && forall i :: 0 <= i < k ==> r[i] == RigidGroup(ps[i].name, [i])
  {
    seq(k, i requires 0 <= i < k => RigidGroup(ps[i].name, [i]))
  }

  /** With unique panel names and the groups so far each panel's own, joining the next panel adds its own group. */
  lemma JoinOwnGroup(ps: seq<Panel>, k: nat)
    requires k < |ps| && Distinct(PanelNames(ps))
    ensures JoinGroup(OwnGroups(ps, k), ps[k].name, k) == OwnGroups(ps, k + 1)
  {
    var g := OwnGroups(ps, k);
    assert GroupNames(g) == PanelNames(ps)[..k];
    assert ps[k].name !in GroupNames(g);
    FindOrAddGroupFacts(g, ps[k].name);
    var g1 := g + [RigidGroup(ps[k].name, [])];
    assert FindOrAddGroup(g, ps[k].name) == (g1, k);
    var r := AddToGroup(g1, k, k);
    assert r[k] == RigidGroup(ps[k].name, [k]);
    assert forall i :: 0 <= i < k ==> r[i] == g[i];
    assert r == OwnGroups(ps, k + 1);
  }

  /** With no group to begin with and unique panel names, panel i gets group i, named after it and holding only i. */
  lemma {:induction false} SynthGroupsSingletons(ps: seq<Panel>, k: nat)
    requires k <= |ps| && Distinct(PanelNames(ps))
    ensures SynthGroups(OwnGroups(ps, k), ps, k) == OwnGroups(ps, |ps|)
    decreases |ps| - k
  {
    if k < |ps| {
      JoinOwnGroup(ps, k);
      SynthGroupsSingletons(ps, k + 1);
    }
  }

  /** The case of the template builder: no groups yet, all panels. */
  lemma SynthGroupsFromNone(gs: seq<RigidGroup>, ps: seq<Panel>)
    requires gs == [] && Distinct(PanelNames(ps))
    ensures SynthGroups(gs, ps, 0) == OwnGroups(ps, |ps|)
  {
    assert OwnGroups(ps, 0) == gs;
    SynthGroupsSingletons(ps, 0);
  }

  lemma DefaultCollectionInv(cs: seq<Collection>, n: nat)
    requires Distinct(CollectionNames(cs)) && GroupsIn(cs, n)
    ensures Distinct(CollectionNames(DefaultCollection(cs, n))) && GroupsIn(DefaultCollection(cs, n), n)
    ensures |DefaultCollection(cs, n)| >= 1
  {
    FindOrAddCollectionDistinct(cs, "default");
    FindOrAddCollectionFacts(cs, "default");
    var (c, ci) := FindOrAddCollection(cs, "default");
    var r := DefaultCollection(cs, n);
    assert CollectionNames(r) == CollectionNames(c);
    forall i, k | 0 <= i < |r| && 0 <= k < |r[i].groups| ensures r[i].groups[k] < n {
      if i != ci {
        if i < |cs| { assert r[i] == cs[i]; }
      } else if k >= |c[ci].groups| {
        assert r[i].groups[k] == Range(n)[k - |c[ci].groups|];
      } else {
        assert r[i].groups[k] == c[ci].groups[k];
        if ci < |cs| { assert c[ci] == cs[ci]; }
      }
    }
  }

  /** Without collection definitions there is exactly one collection, "default", holding every group in order. */
  lemma DefaultCollectionAlone(n: nat)
    ensures DefaultCollection([], n) == [Collection("default", Range(n))]
  {
    assert CollectionNames([]) == [];
    assert IndexOf(CollectionNames([]), "default").None?;
    var (c, ci) := FindOrAddCollection([], "default");
    assert c == [Collection("default", [])] && ci == 0;
    assert c[0].groups + Range(n) == Range(n);
  }

  /** find_or_add_rg twice with the same name is find_or_add_rg once. */
  lemma FindOrAddGroupIdempotent(gs: seq<RigidGroup>, name: string)
    ensures FindOrAddGroup(FindOrAddGroup(gs, name).0, name) == FindOrAddGroup(gs, name)
  {
    var (g, gi) := FindOrAddGroup(gs, name);
    FindOrAddGroupFacts(gs, name);
    if |g| > |gs| {
      assert GroupNames(g) == GroupNames(gs) + [name];
      assert IndexOf(GroupNames(g), name) == Some(|gs|) by {
        assert GroupNames(g)[..|gs|] == GroupNames(gs);
      }
    } else {
      assert g == gs;
    }
  }

  lemma FindOrAddCollectionIdempotent(cs: seq<Collection>, name: string)
    ensures FindOrAddCollection(FindOrAddCollection(cs, name).0, name) == FindOrAddCollection(cs, name)
  {
    var (c, ci) := FindOrAddCollection(cs, name);
    FindOrAddCollectionFacts(cs, name);
    if |c| > |cs| {
      assert CollectionNames(c) == CollectionNames(cs) + [name];
      assert IndexOf(CollectionNames(c), name) == Some(|cs|) by {
        assert CollectionNames(c)[..|cs|] == CollectionNames(cs);
      }
    } else {
      assert c == cs;
    }
  }

  // ---------------------------------------------------------------------
  // The gain check
  // ---------------------------------------------------------------------

  /** adu_per_eV is set on the defaults and on every panel. */
  predicate GainsSet(st: ParseState) {
    && st.dt.defaults.aduPerEv.Some?
    && forall i :: 0 <= i < |st.dt.panels| ==> st.dt.panels[i].aduPerEv.Some?
  }

  /** No panel field unsets a gain. */
  lemma PanelFieldKeepsGain(p: Panel, k: PanelKey, val: string, h: DimHelpers)
    requires p.aduPerEv.Some?
    ensures PanelField(p, k, val, h).panel.aduPerEv.Some?
  {
    if k.DimKey? {
      assert DimField(p, k.index, val, h).aduPerEv == p.aduPerEv;
    }
  }

  lemma PanelLineGains(st: ParseState, obj: string, k: PanelKey, val: string, h: DimHelpers)
    requires GainsSet(st)
    ensures GainsSet(PanelLine(st, obj, k, val, h))
  {
    FindOrAddPanelFacts(st.dt.panels, st.dt.defaults, obj);
    var (ps, i) := FindOrAddPanel(st.dt.panels, st.dt.defaults, obj);
    assert ps[i].aduPerEv.Some?;
    PanelFieldKeepsGain(ps[i], k, val, h);
  }

  lemma TopLevelGains(st: ParseState, k: TopKind, val: string, h: DimHelpers)
    requires GainsSet(st)
    ensures GainsSet(TopLevel(st, k, val, h))
  {
    if k.TopDefaults? {
      PanelFieldKeepsGain(st.dt.defaults, k.field, val, h);
    }
  }

  lemma ApplyLineGains(st: ParseState, raw: string, h: DimHelpers)
    requires GainsSet(st)
    ensures GainsSet(ApplyLine(st, raw, h))
  {
    match ClassifyLine(raw)
    case Blank =>
    case NoEquals =>
    case TopLine(key, val) =>
      TopLevelGains(st, TopKindOf(key), val, h);
    case ObjectLine(obj, key, val) =>
      if StartsWith(obj, "bad") {
        assert ApplyLine(st, raw, h) == BadLine(st, obj, BadKeyOf(key), val);
      } else {
        PanelLineGains(st, obj, PanelKeyOf(key), val, h);
      }
  }

  lemma {:induction false} ParseAllGains(st: ParseState, ls: seq<string>, h: DimHelpers)
    requires GainsSet(st)
    ensures GainsSet(ParseAll(st, ls, h))
    decreases |ls|
  {
    if ls != [] {
      ApplyLineGains(st, ls[0], h);
      ParseAllGains(ApplyLine(st, ls[0], h), ls[1..], h);
    }
  }

  /**
   * As written, the check that a panel has adu_per_eV or adu_per_photon
   * never fires: the defaults start with both at zero, and whatever the
   * text, every panel leaves the line loop with a gain.
   */
  lemma GainCheckNeverFires(s: string, h: DimHelpers)
    ensures forall p :: p in ParseAll(StartState, Lines(Normalise(s)), h).dt.panels ==>
      !(p.aduPerEv.None? && p.aduPerPhoton.None?)
  {
    ParseAllGains(StartState, Lines(Normalise(s)), h);
  }

  /** A field other than the two gains leaves both gains as they were. */
  lemma PanelFieldKeepsGains(p: Panel, k: PanelKey, val: string, h: DimHelpers)
    requires k != AduPerEvKey && k != AduPerPhotonKey
    ensures PanelField(p, k, val, h).panel.aduPerEv == p.aduPerEv
    ensures PanelField(p, k, val, h).panel.aduPerPhoton == p.aduPerPhoton
  {
    if k.DimKey? {
      assert DimField(p, k.index, val, h).(dims := p.dims) == p;
    }
  }

  /** The first panel line, on a template with no panel yet, makes one panel from the defaults. */
  lemma FirstPanelLine(st: ParseState, obj: string, k: PanelKey, val: string, h: DimHelpers)
    requires st.dt.panels == []
    ensures PanelLine(st, obj, k, val, h).dt.panels == [PanelField(st.dt.defaults.(name := obj), k, val, h).panel]
  {
    FindOrAddPanelFacts([], st.dt.defaults, obj);
    assert FindOrAddPanel([], st.dt.defaults, obj) == ([st.dt.defaults.(name := obj)], 0);
  }

  /** As written, a panel named in no gain line still has both gains zero. */
  lemma GainlessPanelHasZeroGains(obj: string, k: PanelKey, val: string, h: DimHelpers)
    requires k != AduPerEvKey && k != AduPerPhotonKey
    ensures var ps := PanelLine(StartState, obj, k, val, h).dt.panels;
      |ps| == 1 && ps[0].aduPerEv == Some(0.0) && ps[0].aduPerPhoton == Some(0.0)
  {
    FirstPanelLine(StartState, obj, k, val, h);
    PanelFieldKeepsGains(CallocDefaults.(name := obj), k, val, h);
  }

  /** With the gains unset at the start, a panel named in no gain line has none. */
  lemma IntendedGainlessPanel(obj: string, k: PanelKey, val: string, h: DimHelpers)
    requires k != AduPerEvKey && k != AduPerPhotonKey
    ensures var ps := PanelLine(IntendedStart, obj, k, val, h).dt.panels;
      |ps| == 1 && ps[0].aduPerEv.None? && ps[0].aduPerPhoton.None?
  {
    FirstPanelLine(IntendedStart, obj, k, val, h);
    PanelFieldKeepsGains(IntendedDefaults.(name := obj), k, val, h);
  }

  /** With the gains unset at the start, a panel left without a gain makes the build fail. */
  lemma IntendedGainlessFails(s: string, h: DimHelpers, i: nat)
    requires i < |ParseAll(IntendedStart, Lines(Normalise(s)), h).dt.panels|
    requires ParseAll(IntendedStart, Lines(Normalise(s)), h).dt.panels[i].aduPerEv.None?
    requires ParseAll(IntendedStart, Lines(Normalise(s)), h).dt.panels[i].aduPerPhoton.None?
    ensures BuildIntended(s, h).None?
  {
    var st := ParseAll(IntendedStart, Lines(Normalise(s)), h);
    ValidateFacts(st, h);
    assert !PanelComplete(st.dt.panels[i]);
    assert Validate(st, h).reject;
  }

  /** A panel whose resolution is "-0" fails the panel check: its pitch is a negative infinity. */
  lemma NegativeZeroResolutionRejected(p: Panel, h: DimHelpers)
    ensures !PanelComplete(PanelField(p, ResKey, "-0", h).panel)
  {
    SignedZeroResolution(p, h);
  }
}
