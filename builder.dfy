/**
 * data_template_new_from_string as the C code runs it: a template object
 * whose arrays grow one entry at a time, per-field parsers that update one
 * panel or bad region in place, the do-while loop over the lines of the
 * text, the check loops after it and the resolution of the rigid groups.
 * Each method is proved to do what module Template says of it, and
 * NewFromString to compute `Build`.
 */
module Builder {
  import opened Wrappers
  import opened Text
  import opened Geometry
  import opened Fields
  import opened Template

  /** The copy of the text in which every '\r' has become '\n'. */
  method NormaliseReturns(s: string) returns (t: string)
    ensures t == Normalise(s)
  {
    var a := new char[|s|](i requires 0 <= i < |s| => s[i]);
    for i := 0 to |s|
      invariant forall k :: 0 <= k < i ==> a[k] == (if s[k] == '\r' then '\n' else s[k])
      invariant forall k :: i <= k < |s| ==> a[k] == s[k]
    {
      if s[i] == '\r' {
        a[i] := '\n';
      }
    }
    t := a[..];
    assert forall k :: 0 <= k < |s| ==> t[k] == Normalise(s)[k];
  }

  /** The strstr loop of the placeholder checks: the number of '%' in a path, 0 without a path. */
  method CountPlaceholders(path: Option<string>) returns (n: nat)
    ensures n == Placeholders(path)
  {
    n := 0;
    if path.Some? {
      var s := path.value;
      var i := 0;
      while i < |s|
        invariant 0 <= i <= |s|
        invariant n == Count(s[..i], '%')
      {
        assert s[..i + 1][..i] == s[..i];
        if s[i] == '%' {
          n := n + 1;
        }
        i := i + 1;
      }
      assert s[..i] == s;
    }
  }

  /** The loop over one dim structure: whether a slot is undefined, and how many fs, ss and placeholder slots it has. */
  method CountRoles(ds: seq<DimRole>) returns (undefined: bool, fs: nat, ss: nat, placeholders: nat)
    ensures undefined <==> UndefinedDim in ds
    ensures fs == Count(ds, FsDim) && ss == Count(ds, SsDim) && placeholders == Count(ds, PlaceholderDim)
    ensures DimsOk(ds) <==> !undefined && fs == 1 && ss == 1 && placeholders <= 1
  {
    undefined, fs, ss, placeholders := false, 0, 0, 0;
    var di := 0;
    while di < |ds|
      invariant 0 <= di <= |ds|
      invariant undefined <==> UndefinedDim in ds[..di]
      invariant fs == Count(ds[..di], FsDim) && ss == Count(ds[..di], SsDim)
      invariant placeholders == Count(ds[..di], PlaceholderDim)
    {
      assert ds[..di + 1][..di] == ds[..di];
      assert ds[..di + 1] == ds[..di] + [ds[di]];
      if ds[di] == UndefinedDim {
        undefined := true;
      }
      if ds[di] == PlaceholderDim {
        placeholders := placeholders + 1;
      }
      if ds[di] == SsDim {
        ss := ss + 1;
      }
      if ds[di] == FsDim {
        fs := fs + 1;
      }
      di := di + 1;
    }
    assert ds[..di] == ds;
  }

  /**
   * One pass of the dim-structure loop: the default structure for a panel
   * without one, then its roles counted and checked.
   */
  method SettleDims(p: Panel, h: DimHelpers) returns (q: Panel, placeholders: nat, bad: bool)
    ensures q == WithDims(p, h)
    ensures placeholders == Count(DimsOf(p, h), PlaceholderDim)
    ensures bad <==> !DimsOk(DimsOf(p, h))
  {
    q := p;
    if q.dims.None? {
      q := q.(dims := Some(h.default));
    }
    var undefined, fs, ss, n := CountRoles(q.dims.value);
    placeholders := n;
    bad := undefined || fs != 1 || ss != 1 || n > 1;
  }

  /** The tests the check loop applies to one panel, each of which rejects the template. */
  method CheckPanel(p: Panel) returns (ok: bool)
    ensures ok <==> PanelComplete(p)
  {
    ok := true;
    if p.origMinFs < 0 { ok := false; }
    if p.origMaxFs < 0 { ok := false; }
    if p.origMinSs < 0 { ok := false; }
    if p.origMaxSs < 0 { ok := false; }
    if p.cnx.None? { ok := false; }
    if p.cny.None? { ok := false; }
    if p.cnzFrom.None? { ok := false; }
    if Negative(p.pixelPitch) { ok := false; }
    if p.data.None? { ok := false; }
    if p.aduPerEv.None? && p.aduPerPhoton.None? { ok := false; }
    if p.clenForCentering.None? && p.rail.Some? { ok := false; }
    if p.maskFile.Some? && p.mask.None? { ok := false; }
  }

  /** Agreement over one more value is one more step. */
  lemma AgreeAppend(xs: seq<nat>, x: nat)
    ensures Agree(xs + [x]) == AgreeStep(Agree(xs), x)
  {
    assert (xs + [x])[..|xs|] == xs;
  }

  /** Agreement over one more element of a sequence is one more step. */
  lemma AgreePrefix(xs: seq<nat>, i: nat)
    requires i < |xs|
    ensures Agree(xs[..i + 1]) == AgreeStep(Agree(xs[..i]), xs[i])
  {
    assert xs[..i + 1] == xs[..i] + [xs[i]];
    AgreeAppend(xs[..i], xs[i]);
  }

  /** The do-while loop's cut at the first newline gives the first of the lines, and the text after it the others. */
  lemma LinesHead(s: string)
    ensures Lines(s)[0] == CutAt(s, '\n')
    ensures |CutAt(s, '\n')| < |s| ==> Lines(s)[1..] == Lines(s[|CutAt(s, '\n')| + 1..])
    ensures |CutAt(s, '\n')| == |s| ==> Lines(s) == [s]
  {
  }

  /** The line loop over a text that holds at least one more line. */
  lemma ParseAllCons(st: ParseState, ls: seq<string>, h: DimHelpers)
    requires ls != []
    ensures ParseAll(st, ls, h) == ParseAll(ApplyLine(st, ls[0], h), ls[1..], h)
  {
  }

  /** One more member name of a group definition: an unknown panel fails the whole definition, a known one is appended. */
  lemma AddMembersStep(gs: seq<RigidGroup>, gi: nat, ps: seq<Panel>, names: seq<string>, i: nat, cur: seq<RigidGroup>)
    requires gi < |gs| && i < |names| && AddMembers(gs, gi, ps, names[..i]) == Some(cur)
    ensures IndexOf(PanelNames(ps), names[i]).None? ==> AddMembers(gs, gi, ps, names).None?
    ensures IndexOf(PanelNames(ps), names[i]).Some? ==>
      gi < |cur| && AddMembers(gs, gi, ps, names[..i + 1]) == Some(AddToGroup(cur, gi, IndexOf(PanelNames(ps), names[i]).value))
  {
    assert names[..i + 1][..i] == names[..i];
    if IndexOf(PanelNames(ps), names[i]).Some? {
      AddToGroupNames(cur, gi, IndexOf(PanelNames(ps), names[i]).value);
    }
  }

  /** One more member name of a collection definition: an unknown group fails the whole definition, a known one is appended. */
  lemma AddGroupsStep(cs: seq<Collection>, ci: nat, gs: seq<RigidGroup>, names: seq<string>, i: nat, cur: seq<Collection>)
    requires ci < |cs| && i < |names| && AddGroups(cs, ci, gs, names[..i]) == Some(cur)
    ensures IndexOf(GroupNames(gs), names[i]).None? ==> AddGroups(cs, ci, gs, names).None?
    ensures IndexOf(GroupNames(gs), names[i]).Some? ==>
      ci < |cur| && AddGroups(cs, ci, gs, names[..i + 1]) == Some(AddToCollection(cur, ci, IndexOf(GroupNames(gs), names[i]).value))
  {
    assert names[..i + 1][..i] == names[..i];
    if IndexOf(GroupNames(gs), names[i]).Some? {
      AddToCollectionNames(cur, ci, IndexOf(GroupNames(gs), names[i]).value);
    }
  }

  /** One turn of the line loop: the first line is applied, then the rest of the text, if there is a rest. */
  lemma ParseTextStep(st: ParseState, rest: string, h: DimHelpers)
    ensures var line := CutAt(rest, '\n');
      ParseAll(st, Lines(rest), h)
      == if |line| < |rest| then ParseAll(ApplyLine(st, line, h), Lines(rest[|line| + 1..]), h)
         else ApplyLine(st, line, h)
  {
    LinesHead(rest);
    ParseAllCons(st, Lines(rest), h);
  }

  /** The DataTemplate that data_template_new_from_string fills in, with the state of its line loop. */
  class TemplateBuilder {
    var panels: seq<Panel>
    var bad: seq<BadRegion>
    var groups: seq<RigidGroup>
    var collections: seq<Collection>
    var defaults: Panel
    var maskGood: real
    var maskBad: real
    var pathDim: int
    var dimDim: int
    var wavelengthFrom: Option<string>
    var peakList: Option<string>
    var photonEnergyBandwidth: real
    var photonEnergyScale: real
    /** The top-level rigid_group_* lines, resolved once the checks are done. */
    var rgDefs: seq<GroupDef>
    /** The top-level rigid_group_collection_* lines. */
    var rgcDefs: seq<GroupDef>
    var reject: bool

    /** The template as it stands. */
    function Contents(): DataTemplate
      reads this
    {
      DataTemplate(panels, bad, groups, collections, defaults, maskGood, maskBad, pathDim, dimDim,
                   wavelengthFrom, peakList, photonEnergyBandwidth, photonEnergyScale)
    }

    /** The template with the pending definitions and the reject flag. */
    function State(): ParseState
      reads this
    {
      ParseState(Contents(), rgDefs, rgcDefs, reject)
    }

    /** The cleared template with the default defaults. */
    constructor ()
      ensures State() == StartState
    {
      panels, bad, groups, collections := [], [], [], [];
      defaults := CallocDefaults;
      maskGood, maskBad := 0.0, 0.0;
      pathDim, dimDim := 0, 0;
      wavelengthFrom, peakList := None, None;
      photonEnergyBandwidth, photonEnergyScale := -1.0, -1.0;
      rgDefs, rgcDefs := [], [];
      reject := false;
    }

    /** find_panel_by_name: the first panel with that name. */
    method FindPanelByName(name: string) returns (r: Option<nat>)
      ensures r == IndexOf(PanelNames(panels), name)
    {
      var i := 0;
      while i < |panels|
        invariant 0 <= i <= |panels|
        invariant name !in PanelNames(panels)[..i]
      {
        if panels[i].name == name {
          IndexOfFirst(PanelNames(panels), name, i);
          return Some(i);
        }
        assert PanelNames(panels)[..i + 1] == PanelNames(panels)[..i] + [panels[i].name];
        i := i + 1;
      }
      assert PanelNames(panels)[..i] == PanelNames(panels);
      return None;
    }

    /** find_bad_region_by_name: the first bad region with that name. */
    method FindBadRegionByName(name: string) returns (r: Option<nat>)
      ensures r == IndexOf(BadNames(bad), name)
    {
      var i := 0;
      while i < |bad|
        invariant 0 <= i <= |bad|
        invariant name !in BadNames(bad)[..i]
      {
        if bad[i].name == name {
          IndexOfFirst(BadNames(bad), name, i);
          return Some(i);
        }
        assert BadNames(bad)[..i + 1] == BadNames(bad)[..i] + [bad[i].name];
        i := i + 1;
      }
      assert BadNames(bad)[..i] == BadNames(bad);
      return None;
    }

    /** find_rigid_group_by_name: the first rigid group with that name. */
    method FindRigidGroupByName(name: string) returns (r: Option<nat>)
      ensures r == IndexOf(GroupNames(groups), name)
    {
      var i := 0;
      while i < |groups|
        invariant 0 <= i <= |groups|
        invariant name !in GroupNames(groups)[..i]
      {
        if groups[i].name == name {
          IndexOfFirst(GroupNames(groups), name, i);
          return Some(i);
        }
        assert GroupNames(groups)[..i + 1] == GroupNames(groups)[..i] + [groups[i].name];
        i := i + 1;
      }
      assert GroupNames(groups)[..i] == GroupNames(groups);
      return None;
    }

    /** new_panel: the array grows by a copy of the defaults as they stand, under the new name. */
    method NewPanel(name: string) returns (pi: nat)
      modifies this`panels
      ensures pi == |old(panels)| && panels == old(panels) + [Geometry.NewPanel(defaults, name)]
    {
      panels := panels + [Geometry.NewPanel(defaults, name)];
      pi := |panels| - 1;
    }

    /** new_bad_region: the array grows by an unassigned region of that name. */
    method NewBadRegion(name: string) returns (bi: nat)
      modifies this`bad
      ensures bi == |old(bad)| && bad == old(bad) + [Geometry.NewBadRegion(name)]
    {
      bad := bad + [Geometry.NewBadRegion(name)];
      bi := |bad| - 1;
    }

    /** find_or_add_rg */
    method FindOrAddRg(name: string) returns (gi: nat)
      modifies this`groups
      ensures (groups, gi) == FindOrAddGroup(old(groups), name)
    {
      var i := 0;
      while i < |groups|
        invariant 0 <= i <= |groups|
        invariant name !in GroupNames(groups)[..i]
      {
        if groups[i].name == name {
          IndexOfFirst(GroupNames(groups), name, i);
          return i;
        }
        assert GroupNames(groups)[..i + 1] == GroupNames(groups)[..i] + [groups[i].name];
        i := i + 1;
      }
      assert GroupNames(groups)[..i] == GroupNames(groups);
      groups := groups + [RigidGroup(name, [])];
      gi := i;
    }

    /** find_or_add_rg_coll */
    method FindOrAddRgColl(name: string) returns (ci: nat)
      modifies this`collections
      ensures (collections, ci) == FindOrAddCollection(old(collections), name)
    {
      var i := 0;
      while i < |collections|
        invariant 0 <= i <= |collections|
        invariant name !in CollectionNames(collections)[..i]
      {
        if collections[i].name == name {
          IndexOfFirst(CollectionNames(collections), name, i);
          return i;
        }
        assert CollectionNames(collections)[..i + 1] == CollectionNames(collections)[..i] + [collections[i].name];
        i := i + 1;
      }
      assert CollectionNames(collections)[..i] == CollectionNames(collections);
      collections := collections + [Collection(name, [])];
      ci := i;
    }

    /** add_to_rigid_group: panel pi joins group gi at the end of its list. */
    method AddToRigidGroup(gi: nat, pi: nat)
      requires gi < |groups|
      modifies this`groups
      ensures groups == AddToGroup(old(groups), gi, pi)
    {
      groups := groups[gi := groups[gi].(panels := groups[gi].panels + [pi])];
    }

    /** add_to_rigid_group_coll: group gi joins collection ci at the end of its list. */
    method AddToRigidGroupColl(ci: nat, gi: nat)
      requires ci < |collections|
      modifies this`collections
      ensures collections == AddToCollection(old(collections), ci, gi)
    {
      collections := collections[ci := collections[ci].(groups := collections[ci].groups + [gi])];
    }

    /** The end of parse_field_for_panel on panel pi: the panel updated, find_or_add_rg and add_to_rigid_group when a group was named, and the reject flag raised when the field failed. */
    method UpdatePanel(pi: nat, u: PanelUpdate)
      requires pi < |panels|
      modifies this`panels, this`groups, this`reject
      ensures State() == ApplyPanelUpdate(old(State()), pi, u)
    {
      panels := panels[pi := u.panel];
      if u.group.Some? {
        var gi := FindOrAddRg(u.group.value);
        AddToRigidGroup(gi, pi);
      }
      if u.reject {
        reject := true;
      }
    }

    /** The end of parse_field_bad on region bi: the region updated and the reject flag raised when the field failed. */
    method UpdateBadRegion(bi: nat, u: BadUpdate)
      requires bi < |bad|
      modifies this`bad, this`reject
      ensures State() == ApplyBadUpdate(old(State()), bi, u)
    {
      bad := bad[bi := u.region];
      if u.reject {
        reject := true;
      }
    }

    /** parse_toplevel */
    method ParseTopLevel(k: TopKind, val: string, h: DimHelpers)
      modifies this`maskBad, this`maskGood, this`defaults, this`wavelengthFrom, this`peakList
      modifies this`photonEnergyBandwidth, this`photonEnergyScale, this`rgDefs, this`rgcDefs
      ensures State() == TopLevel(old(State()), k, val, h)
    {
      if k.TopMaskBad? || k.TopMaskGood? || k.TopBandwidth? {
        ParseTopNumber(k, val, h);
      } else if k.TopDefaults? {
        defaults := PanelField(defaults, k.field, val, h).panel;
      } else {
        ParseTopOther(k, val, h);
      }
    }

    /** The keys of parse_toplevel read with strtod and kept only when a number was read. */
    method ParseTopNumber(k: TopKind, val: string, h: DimHelpers)
      requires k.TopMaskBad? || k.TopMaskGood? || k.TopBandwidth?
      modifies this`maskBad, this`maskGood, this`photonEnergyBandwidth
      ensures State() == TopLevel(old(State()), k, val, h)
    {
      var n := Strtod(val);
      if k.TopMaskBad? {
        if n.used > 0 {
          maskBad := n.value;
        }
      } else if k.TopMaskGood? {
        if n.used > 0 {
          maskGood := n.value;
        }
      } else {
        if val != [] && n.used == |val| {
          photonEnergyBandwidth := n.value;
        }
      }
    }

    /** The other keys of parse_toplevel. */
    method ParseTopOther(k: TopKind, val: string, h: DimHelpers)
      requires !(k.TopMaskBad? || k.TopMaskGood? || k.TopBandwidth? || k.TopDefaults?)
      modifies this`defaults, this`wavelengthFrom, this`peakList
      modifies this`photonEnergyScale, this`rgDefs, this`rgcDefs
      ensures State() == TopLevel(old(State()), k, val, h)
    {
      match k
      case TopCoffset => defaults := defaults.(cnzOffset := Atof(val));
      case TopPhotonEnergy => wavelengthFrom := Some(val);
      case TopPeakList => peakList := Some(val);
      case TopScale => photonEnergyScale := Atof(val);
      case TopGroupDef(name) => rgDefs := rgDefs + [GroupDef(name, val)];
      case TopCollectionDef(name) => rgcDefs := rgcDefs + [GroupDef(name, val)];
    }

    /** The region a "bad..." line names: found by name, or created when new. */
    method FindOrNewBadRegion(obj: string) returns (bi: nat)
      modifies this`bad
      ensures (bad, bi) == FindOrAddBad(old(bad), obj)
    {
      var found := FindBadRegionByName(obj);
      if found.Some? {
        bi := found.value;
      } else {
        bi := NewBadRegion(obj);
      }
    }

    /** The panel a line names: found by name, or created from the defaults when new. */
    method FindOrNewPanel(obj: string) returns (pi: nat)
      modifies this`panels
      ensures (panels, pi) == FindOrAddPanel(old(panels), defaults, obj)
    {
      var found := FindPanelByName(obj);
      if found.Some? {
        pi := found.value;
      } else {
        pi := NewPanel(obj);
      }
    }

    /** A "bad..." line. */
    method BadRegionLine(obj: string, k: BadKey, val: string)
      modifies this`bad, this`reject
      ensures State() == BadLine(old(State()), obj, k, val)
    {
      var bi := FindOrNewBadRegion(obj);
      var u := BadField(bad[bi], k, val);
      UpdateBadRegion(bi, u);
    }

    /** A panel line. */
    method PanelFieldLine(obj: string, k: PanelKey, val: string, h: DimHelpers)
      modifies this`panels, this`groups, this`reject
      ensures State() == PanelLine(old(State()), obj, k, val, h)
    {
      var pi := FindOrNewPanel(obj);
      var u := PanelField(panels[pi], k, val, h);
      UpdatePanel(pi, u);
    }

    /** One pass of the do-while loop over the lines. */
    method ProcessLine(raw: string, h: DimHelpers)
      modifies this
      ensures State() == ApplyLine(old(State()), raw, h)
    {
      match ClassifyLine(raw)
      case Blank =>
      case NoEquals =>
      case TopLine(key, val) =>
        ParseTopLevel(TopKindOf(key), val, h);
      case ObjectLine(obj, key, val) =>
        if StartsWith(obj, "bad") {
          BadRegionLine(obj, BadKeyOf(key), val);
        } else {
          PanelFieldLine(obj, PanelKeyOf(key), val, h);
        }
    }

    /** The loop counting the placeholders of each panel's data path. */
    method DataPathDim() returns (a: Agreement)
      ensures a == Agree(DataCounts(panels))
    {
      a := Agreement(-1, false);
      var i := 0;
      while i < |panels|
        invariant 0 <= i <= |panels|
        invariant a == Agree(DataCounts(panels)[..i])
      {
        var n := CountPlaceholders(panels[i].data);
        AgreePrefix(DataCounts(panels), i);
        if a.first == -1 {
          a := Agreement(n, a.differs);
        } else if n != a.first {
          a := a.(differs := true);
        }
        i := i + 1;
      }
      assert DataCounts(panels)[..i] == DataCounts(panels);
    }

    /** The loop counting the placeholders of the mask paths, skipping panels without one. */
    method MaskPathDim() returns (a: Agreement)
      ensures a == Agree(MaskCounts(panels))
    {
      a := Agreement(-1, false);
      var i := 0;
      while i < |panels|
        invariant 0 <= i <= |panels|
        invariant a == Agree(MaskCounts(panels[..i]))
      {
        assert panels[..i + 1][..i] == panels[..i];
        if panels[i].mask.Some? {
          var n := CountPlaceholders(panels[i].mask);
          AgreeAppend(MaskCounts(panels[..i]), n);
          if a.first == -1 {
            a := Agreement(n, a.differs);
          } else if n != a.first {
            a := a.(differs := true);
          }
        }
        i := i + 1;
      }
      assert panels[..i] == panels;
    }

    /**
     * The dim-structure loop: a panel without a structure gets the default
     * one; it fails when a structure is malformed or the placeholder counts differ.
     */
    method CheckDimStructures(h: DimHelpers) returns (a: Agreement, failed: bool)
      modifies this`panels
      ensures a == Agree(DimCounts(old(panels), h))
      ensures failed <==> a.differs || SomeBadDims(old(panels), h)
      ensures panels == WithDimsAll(old(panels), h)
    {
      ghost var ps := panels;
      a := Agreement(-1, false);
      failed := false;
      var i := 0;
      while i < |panels|
        invariant 0 <= i <= |panels| && |panels| == |ps|
        invariant forall k :: 0 <= k < i ==> panels[k] == WithDims(ps[k], h)
        invariant forall k :: i <= k < |panels| ==> panels[k] == ps[k]
        invariant a == Agree(DimCounts(ps, h)[..i])
        invariant failed <==> a.differs || exists k :: 0 <= k < i && !DimsOk(DimsOf(ps[k], h))
      {
        var p, n, bad := SettleDims(panels[i], h);
        panels := panels[i := p];
        if bad {
          failed := true;
        }
        AgreePrefix(DimCounts(ps, h), i);
        if a.first == -1 {
          a := Agreement(n, a.differs);
        } else if n != a.first {
          a := a.(differs := true);
          failed := true;
        }
        i := i + 1;
      }
      assert DimCounts(ps, h)[..i] == DimCounts(ps, h);
      assert panels == WithDimsAll(ps, h);
    }

    /** The panel check loop: it fails when a panel is incomplete, and sets the default rail and clen_for_centering. */
    method CheckPanels() returns (failed: bool)
      modifies this`panels
      ensures failed <==> SomeIncomplete(old(panels))
      ensures panels == SettleRails(old(panels))
    {
      ghost var ps := panels;
      failed := false;
      var i := 0;
      while i < |panels|
        invariant 0 <= i <= |panels| && |panels| == |ps|
        invariant forall k :: 0 <= k < i ==> panels[k] == SettleRail(ps[k])
        invariant forall k :: i <= k < |panels| ==> panels[k] == ps[k]
        invariant failed <==> exists k :: 0 <= k < i && !PanelComplete(ps[k])
      {
        var ok := CheckPanel(panels[i]);
        if !ok {
          failed := true;
        }
        panels := panels[i := SettleRail(panels[i])];
        i := i + 1;
      }
      assert panels == SettleRails(ps);
    }

    /** The loop over the bad regions: it fails when one has no frame. */
    method CheckBadRegions() returns (failed: bool)
      ensures failed <==> SomeUnassigned(bad)
    {
      failed := false;
      var i := 0;
      while i < |bad|
        invariant 0 <= i <= |bad|
        invariant failed <==> exists k :: 0 <= k < i && bad[k].frame == Unassigned
      {
        if bad[i].frame == Unassigned {
          failed := true;
        }
        i := i + 1;
      }
    }

    /** The placeholder checks on the data and mask paths. */
    method CheckPaths()
      modifies this`pathDim, this`reject
      ensures State() == PathChecks(old(State()))
    {
      var data := DataPathDim();
      var mask := MaskPathDim();
      reject := reject || data.differs || mask.differs;
      reject := reject || mask.first > data.first;
      pathDim := data.first;
    }

    /** The panel check loop, then the bad-region loop. */
    method CheckPanelsAndRegions()
      modifies this`panels, this`reject
      ensures State() == PanelChecks(old(State()))
    {
      var incomplete := CheckPanels();
      reject := reject || incomplete;
      var unassigned := CheckBadRegions();
      reject := reject || unassigned;
    }

    /** The checks after the line loop. */
    method Validate(h: DimHelpers)
      modifies this`panels, this`pathDim, this`dimDim, this`reject
      ensures State() == Template.Validate(old(State()), h)
    {
      CheckPaths();
      var dims, failed := CheckDimStructures(h);
      reject := reject || failed;
      dimDim := dims.first;
      CheckPanelsAndRegions();
    }

    /** One rigid_group_* definition: the group found or added, then each named panel appended. */
    method ResolveGroupDef(d: GroupDef) returns (ok: bool)
      modifies this`groups
      ensures ok <==> ResolveGroup(old(groups), panels, d).Some?
      ensures ok ==> ResolveGroup(old(groups), panels, d) == Some(groups)
    {
      var gi := FindOrAddRg(d.name);
      var bits := SplitNonEmpty(d.members, ',');
      ghost var g1 := groups;
      var pi := 0;
      while pi < |bits|
        invariant 0 <= pi <= |bits| && gi < |groups| == |g1|
        invariant AddMembers(g1, gi, panels, bits[..pi]) == Some(groups)
      {
        var p := FindPanelByName(bits[pi]);
        AddMembersStep(g1, gi, panels, bits, pi, groups);
        if p.None? {
          return false;
        }
        AddToRigidGroup(gi, p.value);
        pi := pi + 1;
      }
      assert bits[..pi] == bits;
      return true;
    }

    /** One rigid_group_collection_* definition: the collection found or added, then each named group appended. */
    method ResolveCollectionDef(d: GroupDef) returns (ok: bool)
      modifies this`collections
      ensures ok <==> ResolveCollection(old(collections), groups, d).Some?
      ensures ok ==> ResolveCollection(old(collections), groups, d) == Some(collections)
    {
      var ci := FindOrAddRgColl(d.name);
      var bits := SplitNonEmpty(d.members, ',');
      ghost var c1 := collections;
      var k := 0;
      while k < |bits|
        invariant 0 <= k <= |bits| && ci < |collections| == |c1|
        invariant AddGroups(c1, ci, groups, bits[..k]) == Some(collections)
      {
        var g := FindRigidGroupByName(bits[k]);
        AddGroupsStep(c1, ci, groups, bits, k, collections);
        if g.None? {
          return false;
        }
        AddToRigidGroupColl(ci, g.value);
        k := k + 1;
      }
      assert bits[..k] == bits;
      return true;
    }

    /** Without group definitions, each panel joins the group named after it. */
    method SynthesiseGroups()
      modifies this`groups
      ensures groups == SynthGroups(old(groups), panels, 0)
    {
      var pi := 0;
      while pi < |panels|
        invariant 0 <= pi <= |panels|
        invariant SynthGroups(groups, panels, pi) == SynthGroups(old(groups), panels, 0)
      {
        var gi := FindOrAddRg(panels[pi].name);
        AddToRigidGroup(gi, pi);
        pi := pi + 1;
      }
    }

    /** Without collection definitions, the collection "default" receives every group in order. */
    method FillDefaultCollection()
      modifies this`collections
      ensures collections == DefaultCollection(old(collections), |groups|)
    {
      var ci := FindOrAddRgColl("default");
      ghost var c1 := collections;
      ghost var g := c1[ci].groups;
      assert g + Range(0) == g;
      var k := 0;
      while k < |groups|
        invariant 0 <= k <= |groups| && ci < |collections| == |c1|
        invariant collections == c1[ci := c1[ci].(groups := g + Range(k))]
      {
        assert (g + Range(k)) + [k] == g + Range(k + 1);
        AddToRigidGroupColl(ci, k);
        k := k + 1;
      }
    }

    /** The loop over the rigid_group_* definitions; the first that names an unknown panel stops it. */
    method ResolveAllGroups() returns (ok: bool)
      modifies this`groups
      ensures ok <==> ResolveGroups(old(groups), panels, rgDefs).Some?
      ensures ok ==> ResolveGroups(old(groups), panels, rgDefs) == Some(groups)
    {
      var i := 0;
      while i < |rgDefs|
        invariant 0 <= i <= |rgDefs|
        invariant ResolveGroups(old(groups), panels, rgDefs[..i]) == Some(groups)
      {
        ResolveGroupsStep(old(groups), panels, rgDefs, i);
        ok := ResolveGroupDef(rgDefs[i]);
        if !ok {
          ResolveGroupsFails(old(groups), panels, rgDefs, i + 1);
          return;
        }
        i := i + 1;
      }
      assert rgDefs[..i] == rgDefs;
      ok := true;
    }

    /** The loop over the rigid_group_collection_* definitions; the first that names an unknown group stops it. */
    method ResolveAllCollections() returns (ok: bool)
      modifies this`collections
      ensures ok <==> ResolveCollections(old(collections), groups, rgcDefs).Some?
      ensures ok ==> ResolveCollections(old(collections), groups, rgcDefs) == Some(collections)
    {
      var i := 0;
      while i < |rgcDefs|
        invariant 0 <= i <= |rgcDefs|
        invariant ResolveCollections(old(collections), groups, rgcDefs[..i]) == Some(collections)
      {
        ResolveCollectionsStep(old(collections), groups, rgcDefs, i);
        ok := ResolveCollectionDef(rgcDefs[i]);
        if !ok {
          ResolveCollectionsFails(old(collections), groups, rgcDefs, i + 1);
          return;
        }
        i := i + 1;
      }
      assert rgcDefs[..i] == rgcDefs;
      ok := true;
    }

    /**
     * The do-while loop of data_template_new_from_string, cutting one line
     * after another at '\n' and handing each to the line parser.
     */
    method ParseText(text: string, h: DimHelpers)
      modifies this
      ensures State() == ParseAll(old(State()), Lines(text), h)
    {
      ghost var goal := ParseAll(State(), Lines(text), h);
      var rest := text;
      var done := false;
      while !done
        invariant !done ==> ParseAll(State(), Lines(rest), h) == goal
        invariant done ==> State() == goal
        decreases if done then 0 else |rest| + 1
      {
        var line := CutAt(rest, '\n');
        ghost var before := State();
        ParseTextStep(before, rest, h);
        ProcessLine(line, h);
        ghost var after := State();
        assert after == ApplyLine(before, line, h);
        if |line| < |rest| {
          rest := rest[|line| + 1..];
          assert ParseAll(after, Lines(rest), h) == goal;
        } else {
          done := true;
          assert after == goal;
        }
      }
    }

    /** The loops over the group definitions and then the collection definitions; NULL is returned at the first unknown name. */
    method ResolveDefinitions() returns (ok: bool)
      modifies this`groups, this`collections
      ensures ok <==> ResolveDefs(old(State())).Some?
      ensures ok ==> ResolveDefs(old(State())) == Some((groups, collections))
    {
      ok := ResolveAllGroups();
      if ok {
        ok := ResolveAllCollections();
      }
    }

    /** The groups synthesised when there were no group definitions, then the default collection when there were no collection definitions. */
    method SynthesiseMissing()
      modifies this`groups, this`collections
      ensures Contents() == Synthesise(old(State()), old(groups), old(collections))
    {
      if rgDefs == [] {
        SynthesiseGroups();
      }
      if rgcDefs == [] {
        FillDefaultCollection();
      }
    }

    /**
     * The end of data_template_new_from_string: the group definitions, the
     * collection definitions, the synthesised groups and default collection,
     * and NULL if anything was rejected.
     */
    method Finish() returns (r: Option<DataTemplate>)
      modifies this`groups, this`collections
      ensures r == Resolve(old(State()))
    {
      r := None;
      var ok := ResolveDefinitions();
      if ok {
        SynthesiseMissing();
        if !reject {
          r := Some(Contents());
        }
      }
    }
  }

  /**
   * data_template_new_from_string: the '\r' replaced, the lines parsed,
   * then the checks and the resolution.
   */
  method NewFromString(s: string, h: DimHelpers) returns (r: Option<DataTemplate>)
    ensures r == Build(s, h)
  {
    var text := NormaliseReturns(s);
    var b := new TemplateBuilder();
    b.ParseText(text, h);
    ghost var parsed := b.State();
    b.Validate(h);
    assert b.State() == Validate(parsed, h);
    r := b.Finish();
  }
}
