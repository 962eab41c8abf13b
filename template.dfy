/**
 * data_template_new_from_string as functions of the geometry text: the line
 * loop (classification of a line, top-level settings, panel and bad-region
 * lines), the checks after parsing, and the resolution and synthesis of
 * rigid groups and their collections. The imperative builder in module
 * Builder is proved to compute `Build`.
 */
module Template {
  import opened Wrappers
  import opened Text
  import opened Direction
  import opened Geometry
  import opened Fields

  /** A top-level rigid_group_* or rigid_group_collection_* line, kept until the checks are done. */
  datatype GroupDef = GroupDef(name: string, members: string)

  /** What the line loop updates: the template, the pending group definitions and `reject`. */
  datatype ParseState = ParseState(dt: DataTemplate, rgDefs: seq<GroupDef>, rgcDefs: seq<GroupDef>, reject: bool)

  const StartState := ParseState(EmptyTemplate, [], [], false)

  // ---------------------------------------------------------------------
  // Objects found by name or added
  // ---------------------------------------------------------------------

  /** find_panel_by_name, then new_panel when the name is new. */
  function FindOrAddPanel(ps: seq<Panel>, defaults: Panel, name: string): (r: (seq<Panel>, nat))
    ensures r.1 < |r.0| && r.0[r.1].name == name
    ensures |ps| <= |r.0| <= |ps| + 1
  {
    match IndexOf(PanelNames(ps), name)
    case Some(i) => (ps, i)
    case None => (ps + [NewPanel(defaults, name)], |ps|)
  }

  /** find_bad_region_by_name, then new_bad_region when the name is new. */
  function FindOrAddBad(bs: seq<BadRegion>, name: string): (r: (seq<BadRegion>, nat))
    ensures r.1 < |r.0| && r.0[r.1].name == name
    ensures |bs| <= |r.0| <= |bs| + 1
  {
    match IndexOf(BadNames(bs), name)
    case Some(i) => (bs, i)
    case None => (bs + [NewBadRegion(name)], |bs|)
  }

  /** find_or_add_rg: the group of that name, or a new empty one at the end. */
  function FindOrAddGroup(gs: seq<RigidGroup>, name: string): (r: (seq<RigidGroup>, nat))
    ensures r.1 < |r.0| && r.0[r.1].name == name
    ensures |gs| <= |r.0| <= |gs| + 1
  {
    match IndexOf(GroupNames(gs), name)
    case Some(i) => (gs, i)
    case None => (gs + [RigidGroup(name, [])], |gs|)
  }

  /** find_or_add_rg_coll: the collection of that name, or a new empty one at the end. */
  function FindOrAddCollection(cs: seq<Collection>, name: string): (r: (seq<Collection>, nat))
    ensures r.1 < |r.0| && r.0[r.1].name == name
    ensures |cs| <= |r.0| <= |cs| + 1
  {
    match IndexOf(CollectionNames(cs), name)
    case Some(i) => (cs, i)
    case None => (cs + [Collection(name, [])], |cs|)
  }

  /** add_to_rigid_group: the panel is appended, even when it is already a member. */
  function AddToGroup(gs: seq<RigidGroup>, gi: nat, pi: nat): (r: seq<RigidGroup>)
    requires gi < |gs|
    ensures |r| == |gs| && r[gi].panels == gs[gi].panels + [pi]
  {
    gs[gi := gs[gi].(panels := gs[gi].panels + [pi])]
  }

  /** Appending a member renames nothing. */
  lemma AddToGroupNames(gs: seq<RigidGroup>, gi: nat, pi: nat)
    requires gi < |gs|
    ensures GroupNames(AddToGroup(gs, gi, pi)) == GroupNames(gs)
  {
    assert GroupNames(AddToGroup(gs, gi, pi)) == GroupNames(gs);
  }

  /** add_to_rigid_group_coll: the group is appended, even when it is already a member. */
  function AddToCollection(cs: seq<Collection>, ci: nat, gi: nat): (r: seq<Collection>)
    requires ci < |cs|
    ensures |r| == |cs| && r[ci].groups == cs[ci].groups + [gi]
  {
    cs[ci := cs[ci].(groups := cs[ci].groups + [gi])]
  }

  lemma AddToCollectionNames(cs: seq<Collection>, ci: nat, gi: nat)
    requires ci < |cs|
    ensures CollectionNames(AddToCollection(cs, ci, gi)) == CollectionNames(cs)
  {
    assert CollectionNames(AddToCollection(cs, ci, gi)) == CollectionNames(cs);
  }

  /** The "rigid_group" field of a panel line: find or add the group, then append the panel. */
  function JoinGroup(gs: seq<RigidGroup>, name: string, pi: nat): (r: seq<RigidGroup>)
    ensures |gs| <= |r| <= |gs| + 1
  {
    var (g, gi) := FindOrAddGroup(gs, name);
    AddToGroup(g, gi, pi)
  }

  // ---------------------------------------------------------------------
  // Top-level settings
  // ---------------------------------------------------------------------

  /**
   * How parse_toplevel treats a key, in the order of its tests. A group or
   * collection definition carries the name that follows its prefix, and any
   * other key is a field of the panel defaults.
   */
  datatype TopKind =
    | TopMaskBad | TopMaskGood | TopCoffset | TopPhotonEnergy | TopPeakList
    | TopBandwidth | TopScale | TopGroupDef(name: string) | TopCollectionDef(name: string)
    | TopDefaults(field: PanelKey)

  /**
   * `key + n` in C: what follows the first n characters. A key too short for
   * that (only "rigid_group" and "rigid_group_collection" themselves) reads
   * past its end in C; it is the empty name here.
   */
  function After(key: string, n: nat): (r: string)
    ensures |key| >= n ==> key == key[..n] + r
    ensures |key| < n ==> r == []
  {
    if |key| >= n then key[n..] else []
  }

  function TopKindOf(key: string): TopKind {
    if key == "mask_bad" then TopMaskBad
    else if key == "mask_good" then TopMaskGood
    else if key == "coffset" then TopCoffset
    else if key == "photon_energy" then TopPhotonEnergy
    else if key == "peak_list" then TopPeakList
    else if key == "photon_energy_bandwidth" then TopBandwidth
    else if key == "photon_energy_scale" then TopScale
    else if StartsWith(key, "rigid_group") && !StartsWith(key, "rigid_group_collection") then TopGroupDef(After(key, 12))
    else if StartsWith(key, "rigid_group_collection") then TopCollectionDef(After(key, 23))
    else TopDefaults(PanelKeyOf(key))
  }

  /** A key starting with 'r' is none of the fixed top-level keys. */
  lemma NotFixedTopKey(k: string)
    requires |k| >= 1 && k[0] == 'r'
    ensures k != "mask_bad" && k != "mask_good" && k != "coffset" && k != "photon_energy"
    ensures k != "peak_list" && k != "photon_energy_bandwidth" && k != "photon_energy_scale"
  {
    assert "mask_bad"[0] != 'r' && "mask_good"[0] != 'r' && "coffset"[0] != 'r';
    assert "photon_energy"[0] != 'r' && "peak_list"[0] != 'r';
    assert "photon_energy_bandwidth"[0] != 'r' && "photon_energy_scale"[0] != 'r';
  }

  /** "rigid_group_<name>" defines the group `name`, unless `name` starts with "collection". */
  lemma GroupDefinitionKey(name: string)
    requires !StartsWith(name, "collection")
    ensures TopKindOf("rigid_group_" + name) == TopGroupDef(name)
  {
    var k := "rigid_group_" + name;
    assert k[..11] == "rigid_group" && k[12..] == name;
    NotFixedTopKey(k);
    assert StartsWith(k, "rigid_group");
    assert !StartsWith(k, "rigid_group_collection") by {
      if |k| >= 22 {
        assert k[..22] == "rigid_group_" + name[..10];
        assert name[..10] != "collection";
      }
    }
    assert After(k, 12) == name;
  }

  /** "rigid_group_collection_<name>" defines the collection `name`. */
  lemma CollectionDefinitionKey(name: string)
    ensures TopKindOf("rigid_group_collection_" + name) == TopCollectionDef(name)
  {
    var k := "rigid_group_collection_" + name;
    assert k[..11] == "rigid_group" && k[..22] == "rigid_group_collection" && k[23..] == name;
    NotFixedTopKey(k);
    assert StartsWith(k, "rigid_group_collection");
    assert After(k, 23) == name;
  }

  /**
   * parse_toplevel. It never rejects: a field the panel parser refuses is
   * only reported, and the defaults take whatever the panel parser made of it.
   */
  function TopLevel(st: ParseState, k: TopKind, val: string, h: DimHelpers): (r: ParseState)
    ensures r.reject == st.reject
    ensures r.dt.panels == st.dt.panels && r.dt.bad == st.dt.bad
    ensures r.dt.groups == st.dt.groups && r.dt.collections == st.dt.collections
    ensures r.rgDefs == if k.TopGroupDef? then st.rgDefs + [GroupDef(k.name, val)] else st.rgDefs
    ensures r.rgcDefs == if k.TopCollectionDef? then st.rgcDefs + [GroupDef(k.name, val)] else st.rgcDefs
    ensures k.TopDefaults? ==> r.dt.defaults == PanelField(st.dt.defaults, k.field, val, h).panel
  {
    var dt := st.dt;
    match k
    case TopMaskBad =>
      var n := Strtod(val);
      if n.used > 0 then st.(dt := dt.(maskBad := n.value)) else st
    case TopMaskGood =>
      var n := Strtod(val);
      if n.used > 0 then st.(dt := dt.(maskGood := n.value)) else st
    case TopCoffset => st.(dt := dt.(defaults := dt.defaults.(cnzOffset := Atof(val))))
    case TopPhotonEnergy => st.(dt := dt.(wavelengthFrom := Some(val)))
    case TopPeakList => st.(dt := dt.(peakList := Some(val)))
    case TopBandwidth =>
      var n := Strtod(val);
      if val != [] && n.used == |val| then st.(dt := dt.(photonEnergyBandwidth := n.value)) else st
    case TopScale => st.(dt := dt.(photonEnergyScale := Atof(val)))
    case TopGroupDef(name) => st.(rgDefs := st.rgDefs + [GroupDef(name, val)])
    case TopCollectionDef(name) => st.(rgcDefs := st.rgcDefs + [GroupDef(name, val)])
    case TopDefaults(f) => st.(dt := dt.(defaults := PanelField(dt.defaults, f, val, h).panel))
  }

  // ---------------------------------------------------------------------
  // One line
  // ---------------------------------------------------------------------

  /** What a line of the geometry text is, once trimmed and cut at its comment. */
  datatype Line =
    | Blank
    | NoEquals
    | TopLine(key: string, val: string)
    | ObjectLine(obj: string, key: string, val: string)

  /** The line without its leading spaces and tabs, cut at the first ';'. */
  function Content(raw: string): (c: string)
    ensures ';' !in c
    ensures c == [] || !IsSpaceOrTab(c[0])
  {
    CutAt(DropLeading(raw), ';')
  }

  /**
   * The key is what precedes the first '=', without trailing blanks; the
   * value is what follows it, without leading and trailing blanks. A key
   * holding a '/' is split at its first '/' into object name and field.
   */
  function ClassifyLine(raw: string): (l: Line)
    ensures l.Blank? <==> Content(raw) == []
    ensures l.NoEquals? <==> Content(raw) != [] && '=' !in Content(raw)
    ensures l.TopLine? ==> '/' !in l.key && ';' !in l.val
    ensures l.ObjectLine? ==> '/' !in l.obj && ';' !in l.val
    ensures l.TopLine? || l.ObjectLine? ==> l.val == [] || (!IsSpaceOrTab(l.val[0]) && !IsSpaceOrTab(l.val[|l.val| - 1]))
  {
    var line := Content(raw);
    if line == [] then Blank
    else match IndexOf(line, '=')
      case None => NoEquals
      case Some(e) =>
        var val := NoTrail(DropLeading(line[e + 1..]));
        var key := NoTrail(line[..e]);
        match IndexOf(key, '/')
        case None => TopLine(key, val)
        case Some(k) => ObjectLine(key[..k], key[k + 1..], val)
  }

  /** What parse_field_bad did to region i, applied to the template: the region replaced and the reject flag raised when the field failed. */
  function ApplyBadUpdate(st: ParseState, i: nat, u: BadUpdate): (r: ParseState)
    requires i < |st.dt.bad|
    ensures r.dt.panels == st.dt.panels && r.dt.groups == st.dt.groups
    ensures r.rgDefs == st.rgDefs && r.rgcDefs == st.rgcDefs
    ensures u.region.name == st.dt.bad[i].name ==> BadNames(r.dt.bad) == BadNames(st.dt.bad)
    ensures r.reject == (st.reject || u.reject)
  {
    var bs2 := st.dt.bad[i := u.region];
    assert u.region.name == st.dt.bad[i].name ==> BadNames(bs2) == BadNames(st.dt.bad);
    st.(dt := st.dt.(bad := bs2), reject := st.reject || u.reject)
  }

  /** A "bad..." line: the region found or added, then parse_field_bad. */
  function BadLine(st: ParseState, obj: string, k: BadKey, val: string): (r: ParseState)
    ensures r.dt.panels == st.dt.panels && r.dt.groups == st.dt.groups
    ensures r.rgDefs == st.rgDefs && r.rgcDefs == st.rgcDefs
    ensures BadNames(r.dt.bad) == BadNames(FindOrAddBad(st.dt.bad, obj).0)
    ensures r.reject == (st.reject || BadField(FindOrAddBad(st.dt.bad, obj).0[FindOrAddBad(st.dt.bad, obj).1], k, val).reject)
  {
    var (bs, i) := FindOrAddBad(st.dt.bad, obj);
    ApplyBadUpdate(st.(dt := st.dt.(bad := bs)), i, BadField(bs[i], k, val))
  }

  /**
   * What parse_field_for_panel did to panel i, applied to the template: the
   * panel replaced, the rigid group joined when one was named, and the
   * reject flag raised when the field failed.
   */
  function ApplyPanelUpdate(st: ParseState, i: nat, u: PanelUpdate): (r: ParseState)
    requires i < |st.dt.panels|
    ensures r.dt.bad == st.dt.bad && r.rgDefs == st.rgDefs && r.rgcDefs == st.rgcDefs
    ensures r.dt.defaults == st.dt.defaults && r.dt.collections == st.dt.collections
    ensures u.panel.name == st.dt.panels[i].name ==> PanelNames(r.dt.panels) == PanelNames(st.dt.panels)
    ensures u.group.None? ==> r.dt.groups == st.dt.groups
    ensures r.reject == (st.reject || u.reject)
  {
    var ps2 := st.dt.panels[i := u.panel];
    assert u.panel.name == st.dt.panels[i].name ==> PanelNames(ps2) == PanelNames(st.dt.panels);
    var gs := match u.group case Some(g) => JoinGroup(st.dt.groups, g, i) case None => st.dt.groups;
    st.(dt := st.dt.(panels := ps2, groups := gs), reject := st.reject || u.reject)
  }

  /** parse_field_for_panel on panel i. */
  function FieldAt(st: ParseState, i: nat, k: PanelKey, val: string, h: DimHelpers): (r: ParseState)
    requires i < |st.dt.panels|
    ensures r.dt.bad == st.dt.bad && r.rgDefs == st.rgDefs && r.rgcDefs == st.rgcDefs
    ensures r.dt.defaults == st.dt.defaults && r.dt.collections == st.dt.collections
    ensures PanelNames(r.dt.panels) == PanelNames(st.dt.panels)
    ensures k != RigidGroupKey ==> r.dt.groups == st.dt.groups
    ensures r.reject == (st.reject || PanelField(st.dt.panels[i], k, val, h).reject)
  {
    ApplyPanelUpdate(st, i, PanelField(st.dt.panels[i], k, val, h))
  }

  /** A panel line: the panel found or added, then the field applied to it. */
  function PanelLine(st: ParseState, obj: string, k: PanelKey, val: string, h: DimHelpers): (r: ParseState)
    ensures r.dt.bad == st.dt.bad && r.rgDefs == st.rgDefs && r.rgcDefs == st.rgcDefs
    ensures r.dt.defaults == st.dt.defaults && r.dt.collections == st.dt.collections
    ensures PanelNames(r.dt.panels) == PanelNames(FindOrAddPanel(st.dt.panels, st.dt.defaults, obj).0)
    ensures k != RigidGroupKey ==> r.dt.groups == st.dt.groups
    ensures r.reject == (st.reject || PanelField(FindOrAddPanel(st.dt.panels, st.dt.defaults, obj).0[FindOrAddPanel(st.dt.panels, st.dt.defaults, obj).1], k, val, h).reject)
  {
    var (ps, i) := FindOrAddPanel(st.dt.panels, st.dt.defaults, obj);
    FieldAt(st.(dt := st.dt.(panels := ps)), i, k, val, h)
  }

  /** One pass of the line loop. */
  function ApplyLine(st: ParseState, raw: string, h: DimHelpers): ParseState {
    match ClassifyLine(raw)
    case Blank => st
    case NoEquals => st
    case TopLine(key, val) => TopLevel(st, TopKindOf(key), val, h)
    case ObjectLine(obj, key, val) =>
      if StartsWith(obj, "bad") then BadLine(st, obj, BadKeyOf(key), val)
      else PanelLine(st, obj, PanelKeyOf(key), val, h)
  }

  // ---------------------------------------------------------------------
  // The text
  // ---------------------------------------------------------------------

  /** Every '\r' becomes '\n'. */
  function Normalise(s: string): (r: string)
    ensures |r| == |s| && '\r' !in r
    ensures forall i :: 0 <= i < |s| && s[i] != '\r' ==> r[i] == s[i]
  {
    seq(|s|, i requires 0 <= i < |s| => if s[i] == '\r' then '\n' else s[i])
  }

  /** The pieces between newlines; the text after the last newline, empty or not, is a line too. */
  function Lines(s: string): (r: seq<string>)
    ensures |r| >= 1
    ensures forall i :: 0 <= i < |r| ==> '\n' !in r[i]
    decreases |s|
  {
    match IndexOf(s, '\n')
    case None => [s]
    case Some(k) => [s[..k]] + Lines(s[k + 1..])
  }

  /** The lines joined back with newlines. */
  function JoinLines(ls: seq<string>): string
    requires |ls| >= 1
    decreases |ls|
  {
    if |ls| == 1 then ls[0] else ls[0] + "\n" + JoinLines(ls[1..])
  }

  /** The line loop from state `st`. */
  function ParseAll(st: ParseState, ls: seq<string>, h: DimHelpers): ParseState
    decreases |ls|
  {
    if ls == [] then st else ParseAll(ApplyLine(st, ls[0], h), ls[1..], h)
  }

  // ---------------------------------------------------------------------
  // Checks after parsing
  // ---------------------------------------------------------------------

  /** A first value and whether a later value differs from it: the placeholder checks for data, mask and dims. */
  datatype Agreement = Agreement(first: int, differs: bool)

  /** The running check path_dim, mask_path_dim and dim_dim go through: -1 until the first value. */
  function Agree(xs: seq<nat>): Agreement {
    if xs == [] then Agreement(-1, false)
    else AgreeStep(Agree(xs[..|xs| - 1]), xs[|xs| - 1])
  }

  /** The running check keeps the first value, and flags a difference exactly when some value differs from it. */
  lemma {:induction false} AgreeFacts(xs: seq<nat>)
    ensures Agree(xs).first == if xs == [] then -1 else xs[0]
    ensures Agree(xs).differs <==> exists i :: 0 <= i < |xs| && xs[i] != xs[0]
  {
    if xs != [] {
      var init := xs[..|xs| - 1];
      AgreeFacts(init);
      assert init != [] ==> init[0] == xs[0];
      assert forall i :: 0 <= i < |init| ==> init[i] == xs[i];
    }
  }

  /** One value more: it becomes the first when there was none, and otherwise is compared with the first. */
  function AgreeStep(a: Agreement, x: nat): Agreement {
    if a.first == -1 then Agreement(x, a.differs) else Agreement(a.first, a.differs || x != a.first)
  }

  /** The number of '%' placeholders in a path; no path has none. */
  function Placeholders(path: Option<string>): nat {
    Count(path.GetOr([]), '%')
  }

  function DataCounts(ps: seq<Panel>): seq<nat>
  {
    seq(|ps|, i requires 0 <= i < |ps| => Placeholders(ps[i].data))
  }

  /** The placeholder counts of the panels that have a mask, in panel order. */
  function MaskCounts(ps: seq<Panel>): (r: seq<nat>)
    ensures |r| <= |ps|
  {
    if ps == [] then []
    else
      var init := MaskCounts(ps[..|ps| - 1]);
      var p := ps[|ps| - 1];
      if p.mask.Some? then init + [Placeholders(p.mask)] else init
  }

  /** The dim structure check uses: the panel's own, or default_dim_structure. */
  function DimsOf(p: Panel, h: DimHelpers): seq<DimRole> {
    p.dims.GetOr(h.default)
  }

  /** Exactly one fast-scan and one slow-scan role, at most one placeholder, nothing undefined. */
  predicate DimsOk(ds: seq<DimRole>) {
    UndefinedDim !in ds && Count(ds, FsDim) == 1 && Count(ds, SsDim) == 1 && Count(ds, PlaceholderDim) <= 1
  }

  function DimCounts(ps: seq<Panel>, h: DimHelpers): seq<nat>
  {
    seq(|ps|, i requires 0 <= i < |ps| => Count(DimsOf(ps[i], h), PlaceholderDim))
  }

  /** The per-panel requirements of the check loop. */
  predicate PanelComplete(p: Panel) {
    && p.origMinFs >= 0 && p.origMaxFs >= 0 && p.origMinSs >= 0 && p.origMaxSs >= 0
    && p.cnx.Some? && p.cny.Some?
    && p.cnzFrom.Some?
    && !Negative(p.pixelPitch)
    && p.data.Some?
    && !(p.aduPerEv.None? && p.aduPerPhoton.None?)
    && !(p.clenForCentering.None? && p.rail.Some?)
    && !(p.maskFile.Some? && p.mask.None?)
  }

  /** The dim-structure loop: a panel without a structure gets default_dim_structure. */
  function WithDims(p: Panel, h: DimHelpers): Panel {
    p.(dims := Some(DimsOf(p, h)))
  }

  /** The end of the panel check loop: the default rail (0,0,1) and clen_for_centering 0. */
  function SettleRail(p: Panel): Panel {
    p.(rail := if p.rail.None? then Some(Vec3(0.0, 0.0, 1.0)) else p.rail,
       clenForCentering := Some(p.clenForCentering.GetOr(0.0)))
  }

  function WithDimsAll(ps: seq<Panel>, h: DimHelpers): seq<Panel> {
    seq(|ps|, i requires 0 <= i < |ps| => WithDims(ps[i], h))
  }

  function SettleRails(ps: seq<Panel>): seq<Panel> {
    seq(|ps|, i requires 0 <= i < |ps| => SettleRail(ps[i]))
  }

  /** The panels after both loops. */
  function SettleAll(ps: seq<Panel>, h: DimHelpers): seq<Panel> {
    SettleRails(WithDimsAll(ps, h))
  }

  /**
   * After the checks every panel keeps its name and locations, holds a dim
   * structure (its own or the default), and has a rail and a
   * clen_for_centering, (0,0,1) and 0 when they were unset.
   */
  lemma SettleAllFacts(ps: seq<Panel>, h: DimHelpers, i: nat)
    requires i < |ps|
    ensures |SettleAll(ps, h)| == |ps|
    ensures SettleAll(ps, h)[i].name == ps[i].name && SettleAll(ps, h)[i].data == ps[i].data
    ensures SettleAll(ps, h)[i].mask == ps[i].mask && SettleAll(ps, h)[i].maskFile == ps[i].maskFile
    ensures SettleAll(ps, h)[i].dims == Some(DimsOf(ps[i], h))
    ensures SettleAll(ps, h)[i].rail == if ps[i].rail.None? then Some(Vec3(0.0, 0.0, 1.0)) else ps[i].rail
    ensures SettleAll(ps, h)[i].clenForCentering == Some(ps[i].clenForCentering.GetOr(0.0))
  {
  }

  lemma SettleAllNames(ps: seq<Panel>, h: DimHelpers)
    ensures PanelNames(SettleAll(ps, h)) == PanelNames(ps)
  {
    assert forall i :: 0 <= i < |ps| ==> SettleAll(ps, h)[i].name == ps[i].name;
  }

  predicate SomeIncomplete(ps: seq<Panel>) {
    exists i :: 0 <= i < |ps| && !PanelComplete(ps[i])
  }

  /** The checks of the panel loop do not look at the dim structure. */
  lemma SomeIncompleteWithDims(ps: seq<Panel>, h: DimHelpers)
    ensures SomeIncomplete(WithDimsAll(ps, h)) == SomeIncomplete(ps)
  {
    assert forall i :: 0 <= i < |ps| ==> PanelComplete(WithDimsAll(ps, h)[i]) == PanelComplete(ps[i]);
  }

  predicate SomeBadDims(ps: seq<Panel>, h: DimHelpers) {
    exists i :: 0 <= i < |ps| && !DimsOk(DimsOf(ps[i], h))
  }

  predicate SomeUnassigned(bs: seq<BadRegion>) {
    exists i :: 0 <= i < |bs| && bs[i].frame == Unassigned
  }

  /**
   * The placeholder checks on the data and mask paths: path_dim is recorded,
   * and the template is rejected when the data paths or the mask paths
   * disagree, or the masks have more placeholders than the data.
   */
  function PathChecks(st: ParseState): ParseState {
    var data := Agree(DataCounts(st.dt.panels));
    var mask := Agree(MaskCounts(st.dt.panels));
    st.(dt := st.dt.(pathDim := data.first),
        reject := st.reject || data.differs || mask.differs || mask.first > data.first)
  }

  /**
   * The dim-structure loop: every panel gets a structure, dim_dim is
   * recorded, and a malformed structure or disagreeing placeholder counts
   * reject.
   */
  function DimChecks(st: ParseState, h: DimHelpers): ParseState {
    var ps := st.dt.panels;
    var dims := Agree(DimCounts(ps, h));
    st.(dt := st.dt.(panels := WithDimsAll(ps, h), dimDim := dims.first),
        reject := st.reject || dims.differs || SomeBadDims(ps, h))
  }

  /** The panel check loop and the bad-region loop: an incomplete panel or a region without a frame rejects. */
  function PanelChecks(st: ParseState): ParseState {
    var ps := st.dt.panels;
    st.(dt := st.dt.(panels := SettleRails(ps)),
        reject := st.reject || SomeIncomplete(ps) || SomeUnassigned(st.dt.bad))
  }

  /** The checks after the line loop, in the order the parser makes them. */
  function Validate(st: ParseState, h: DimHelpers): ParseState {
    PanelChecks(DimChecks(PathChecks(st), h))
  }

  /** Whether the checks after the line loop reject, all evaluated on the panels as the line loop left them. */
  predicate ChecksReject(dt: DataTemplate, h: DimHelpers) {
    var data := Agree(DataCounts(dt.panels));
    var mask := Agree(MaskCounts(dt.panels));
    var dims := Agree(DimCounts(dt.panels, h));
    || data.differs || mask.differs
    || mask.first > data.first
    || dims.differs || SomeBadDims(dt.panels, h)
    || SomeIncomplete(dt.panels)
    || SomeUnassigned(dt.bad)
  }

  /**
   * The checks reject exactly when one of them fails, and change nothing but
   * the panels, path_dim, dim_dim and `reject`; the panels keep their names.
   */
  lemma ValidateFacts(st: ParseState, h: DimHelpers)
    ensures Validate(st, h).reject <==> st.reject || ChecksReject(st.dt, h)
    ensures Validate(st, h).dt.panels == SettleAll(st.dt.panels, h)
    ensures Validate(st, h).dt.pathDim == Agree(DataCounts(st.dt.panels)).first
    ensures Validate(st, h).dt.dimDim == Agree(DimCounts(st.dt.panels, h)).first
    ensures Validate(st, h).dt == st.dt.(panels := Validate(st, h).dt.panels,
                                         pathDim := Validate(st, h).dt.pathDim,
                                         dimDim := Validate(st, h).dt.dimDim)
    ensures Validate(st, h).(dt := st.dt, reject := st.reject) == st
    ensures PanelNames(Validate(st, h).dt.panels) == PanelNames(st.dt.panels)
  {
    SomeIncompleteWithDims(st.dt.panels, h);
    SettleAllNames(st.dt.panels, h);
  }

  // ---------------------------------------------------------------------
  // Rigid groups and collections
  // ---------------------------------------------------------------------

  /** Every panel index held by a group is below n. */
  predicate MembersIn(gs: seq<RigidGroup>, n: nat) {
    forall i, k :: 0 <= i < |gs| && 0 <= k < |gs[i].panels| ==> gs[i].panels[k] < n
  }

  /** Every group index held by a collection is below n. */
  predicate GroupsIn(cs: seq<Collection>, n: nat) {
    forall i, k :: 0 <= i < |cs| && 0 <= k < |cs[i].groups| ==> cs[i].groups[k] < n
  }

  /** The panels named in a member list are appended to group gi in order; an unknown name fails. */
  function AddMembers(gs: seq<RigidGroup>, gi: nat, ps: seq<Panel>, names: seq<string>): (r: Option<seq<RigidGroup>>)
    requires gi < |gs|
    ensures r.Some? <==> forall k :: 0 <= k < |names| ==> names[k] in PanelNames(ps)
    ensures r.Some? ==> |r.value| == |gs| && GroupNames(r.value) == GroupNames(gs)
    ensures r.Some? ==> |r.value[gi].panels| == |gs[gi].panels| + |names|
    ensures r.Some? && MembersIn(gs, |ps|) ==> MembersIn(r.value, |ps|)
  {
    if names == [] then Some(gs)
    else
      match AddMembers(gs, gi, ps, names[..|names| - 1])
      case None => None
      case Some(g) =>
        match IndexOf(PanelNames(ps), names[|names| - 1])
        case None => None
        case Some(pi) => AddToGroupNames(g, gi, pi); Some(AddToGroup(g, gi, pi))
  }

  /** One rigid_group_* definition. */
  function ResolveGroup(gs: seq<RigidGroup>, ps: seq<Panel>, d: GroupDef): Option<seq<RigidGroup>> {
    var (g, gi) := FindOrAddGroup(gs, d.name);
    AddMembers(g, gi, ps, SplitNonEmpty(d.members, ','))
  }

  /** The rigid_group_* definitions in order; the first unknown panel fails the whole template. */
  function ResolveGroups(gs: seq<RigidGroup>, ps: seq<Panel>, defs: seq<GroupDef>): Option<seq<RigidGroup>> {
    if defs == [] then Some(gs)
    else
      match ResolveGroups(gs, ps, defs[..|defs| - 1])
      case None => None
      case Some(g) => ResolveGroup(g, ps, defs[|defs| - 1])
  }

  /** The groups named in a member list are appended to collection ci in order; an unknown name fails. */
  function AddGroups(cs: seq<Collection>, ci: nat, gs: seq<RigidGroup>, names: seq<string>): (r: Option<seq<Collection>>)
    requires ci < |cs|
    ensures r.Some? <==> forall k :: 0 <= k < |names| ==> names[k] in GroupNames(gs)
    ensures r.Some? ==> |r.value| == |cs| && CollectionNames(r.value) == CollectionNames(cs)
    ensures r.Some? ==> |r.value[ci].groups| == |cs[ci].groups| + |names|
    ensures r.Some? && GroupsIn(cs, |gs|) ==> GroupsIn(r.value, |gs|)
  {
    if names == [] then Some(cs)
    else
      match AddGroups(cs, ci, gs, names[..|names| - 1])
      case None => None
      case Some(c) =>
        match IndexOf(GroupNames(gs), names[|names| - 1])
        case None => None
        case Some(gi) => AddToCollectionNames(c, ci, gi); Some(AddToCollection(c, ci, gi))
  }

  function ResolveCollection(cs: seq<Collection>, gs: seq<RigidGroup>, d: GroupDef): Option<seq<Collection>> {
    var (c, ci) := FindOrAddCollection(cs, d.name);
    AddGroups(c, ci, gs, SplitNonEmpty(d.members, ','))
  }

  function ResolveCollections(cs: seq<Collection>, gs: seq<RigidGroup>, defs: seq<GroupDef>): Option<seq<Collection>> {
    if defs == [] then Some(cs)
    else
      match ResolveCollections(cs, gs, defs[..|defs| - 1])
      case None => None
      case Some(c) => ResolveCollection(c, gs, defs[|defs| - 1])
  }

  /** One more definition resolved on top of a prefix. */
  lemma ResolveGroupsStep(gs: seq<RigidGroup>, ps: seq<Panel>, defs: seq<GroupDef>, i: nat)
    requires i < |defs|
    ensures ResolveGroups(gs, ps, defs[..i + 1]) ==
      match ResolveGroups(gs, ps, defs[..i]) case None => None case Some(g) => ResolveGroup(g, ps, defs[i])
  {
    assert defs[..i + 1][..i] == defs[..i];
  }

  /** A definition that fails fails the whole list: the C code returns NULL at once. */
  lemma {:induction false} ResolveGroupsFails(gs: seq<RigidGroup>, ps: seq<Panel>, defs: seq<GroupDef>, i: nat)
    requires i <= |defs| && ResolveGroups(gs, ps, defs[..i]).None?
    ensures ResolveGroups(gs, ps, defs).None?
    decreases |defs| - i
  {
    if i < |defs| {
      ResolveGroupsStep(gs, ps, defs, i);
      ResolveGroupsFails(gs, ps, defs, i + 1);
    } else {
      assert defs[..i] == defs;
    }
  }

  lemma ResolveCollectionsStep(cs: seq<Collection>, gs: seq<RigidGroup>, defs: seq<GroupDef>, i: nat)
    requires i < |defs|
    ensures ResolveCollections(cs, gs, defs[..i + 1]) ==
      match ResolveCollections(cs, gs, defs[..i]) case None => None case Some(c) => ResolveCollection(c, gs, defs[i])
  {
    assert defs[..i + 1][..i] == defs[..i];
  }

  lemma {:induction false} ResolveCollectionsFails(cs: seq<Collection>, gs: seq<RigidGroup>, defs: seq<GroupDef>, i: nat)
    requires i <= |defs| && ResolveCollections(cs, gs, defs[..i]).None?
    ensures ResolveCollections(cs, gs, defs).None?
    decreases |defs| - i
  {
    if i < |defs| {
      ResolveCollectionsStep(cs, gs, defs, i);
      ResolveCollectionsFails(cs, gs, defs, i + 1);
    } else {
      assert defs[..i] == defs;
    }
  }

  /** Without group definitions, each panel from index k on joins the group named after it. */
  function SynthGroups(gs: seq<RigidGroup>, ps: seq<Panel>, k: nat): seq<RigidGroup>
    requires k <= |ps|
    decreases |ps| - k
  {
    if k == |ps| then gs else SynthGroups(JoinGroup(gs, ps[k].name, k), ps, k + 1)
  }

  /** 0, 1, ..., n-1 */
  function Range(n: nat): (r: seq<nat>)
    ensures |r| == n && forall i :: 0 <= i < n ==> r[i] == i
  {
    seq(n, i requires 0 <= i < n => i)
  }

  /** Without collection definitions, the collection "default" receives all n groups in order. */
  function DefaultCollection(cs: seq<Collection>, n: nat): seq<Collection> {
    var (c, ci) := FindOrAddCollection(cs, "default");
    c[ci := c[ci].(groups := c[ci].groups + Range(n))]
  }

  /** The group definitions, then the collection definitions; None at the first unknown name. */
  function ResolveDefs(st: ParseState): Option<(seq<RigidGroup>, seq<Collection>)> {
    match ResolveGroups(st.dt.groups, st.dt.panels, st.rgDefs)
    case None => None
    case Some(gs) =>
      match ResolveCollections(st.dt.collections, gs, st.rgcDefs)
      case None => None
      case Some(cs) => Some((gs, cs))
  }

  /** Groups named after the panels when there were no group definitions, then the collection "default" when there were no collection definitions. */
  function Synthesise(st: ParseState, gs: seq<RigidGroup>, cs: seq<Collection>): DataTemplate {
    var gs2 := if st.rgDefs == [] then SynthGroups(gs, st.dt.panels, 0) else gs;
    var cs2 := if st.rgcDefs == [] then DefaultCollection(cs, |gs2|) else cs;
    st.dt.(groups := gs2, collections := cs2)
  }

  /** The definitions, then the synthesis, then `reject`. */
  function Resolve(st: ParseState): Option<DataTemplate> {
    match ResolveDefs(st)
    case None => None
    case Some(d) => if st.reject then None else Some(Synthesise(st, d.0, d.1))
  }

  /** data_template_new_from_string: None where the C function returns NULL. */
  function Build(s: string, h: DimHelpers): Option<DataTemplate> {
    Resolve(Validate(ParseAll(StartState, Lines(Normalise(s)), h), h))
  }

  /** The start of the line loop with the gains unset, as the check that a panel has a gain expects. */
  const IntendedStart := ParseState(IntendedEmptyTemplate, [], [], false)

  /** data_template_new_from_string started from defaults whose gains are unset. */
  function BuildIntended(s: string, h: DimHelpers): Option<DataTemplate> {
    Resolve(Validate(ParseAll(IntendedStart, Lines(Normalise(s)), h), h))
  }
}
