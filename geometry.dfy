/**
 * The entities of the geometry data template: panel templates, bad regions,
 * rigid groups and their collections, and the template that holds them.
 * Every value the C code keeps as a double is a `real`; a NaN or "not yet
 * set" value is `None`, as is the +INFINITY default of max_adu.
 */
module Geometry {
  import opened Wrappers
  import opened Text
  import opened Direction

  /** One slot of a panel's dimension structure (HYSL_FS, HYSL_SS, HYSL_PLACEHOLDER, HYSL_UNDEFINED or a fixed index). */
  datatype DimRole = FsDim | SsDim | PlaceholderDim | UndefinedDim | FixedDim(index: int)

  /**
   * The helpers of the dimension structure, whose code is not part of this
   * model: the empty structure made by initialize_dim_structure, the one
   * default_dim_structure gives, and set_dim_structure_entry, which yields
   * None when it fails.
   */
  datatype DimHelpers = DimHelpers(
    initial: seq<DimRole>,
    default: seq<DimRole>,
    setEntry: (seq<DimRole>, int, string) -> Option<seq<DimRole>>)

  /** A double that may be infinite: the pixel pitch, whose "res" can be a zero of either sign. */
  datatype Extended = Finite(value: real) | PlusInfinity | MinusInfinity

  /** The test `x < 0` on a double that may be infinite. */
  predicate Negative(x: Extended) {
    x.MinusInfinity? || (x.Finite? && x.value < 0.0)
  }

  /**
   * 1.0/x in double arithmetic: a non-zero x gives its reciprocal, and a
   * zero gives the infinity of the zero's sign.
   */
  function Reciprocal(x: real, negativeZero: bool): (r: Extended)
    ensures x != 0.0 ==> r.Finite? && r.value * x == 1.0
    ensures x == 0.0 ==> !r.Finite? && (r.MinusInfinity? <==> negativeZero)
  {
    if x != 0.0 then Finite(1.0 / x)
    else if negativeZero then MinusInfinity
    else PlusInfinity
  }

  /** A panel template. `maxAdu` is None for +INFINITY. */
  datatype Panel = Panel(
    name: string,
    origMinFs: int, origMaxFs: int, origMinSs: int, origMaxSs: int,
    cnx: Option<real>, cny: Option<real>,
    cnzFrom: Option<string>, cnzOffset: real,
    pixelPitch: Extended,
    bad: int,
    fs: Vec3, ss: Vec3,
    rail: Option<Vec3>,
    clenForCentering: Option<real>,
    aduPerEv: Option<real>, aduPerPhoton: Option<real>,
    maxAdu: Option<real>,
    data: Option<string>, mask: Option<string>, maskFile: Option<string>,
    satmap: Option<string>, satmapFile: Option<string>,
    dims: Option<seq<DimRole>>)

  /** The frame of a bad region: unassigned (is_fsss == 99), x/y (0) or fs/ss (1). */
  datatype Frame = Unassigned | XYFrame | FsSsFrame

  datatype BadRegion = BadRegion(
    name: string,
    minX: Option<real>, maxX: Option<real>, minY: Option<real>, maxY: Option<real>,
    minFs: int, maxFs: int, minSs: int, maxSs: int,
    frame: Frame,
    panel: Option<string>)

  /** A rigid group holds panel indices: the C pointers into the panel array are indices here. */
  datatype RigidGroup = RigidGroup(name: string, panels: seq<nat>)

  datatype Collection = Collection(name: string, groups: seq<nat>)

  datatype DataTemplate = DataTemplate(
    panels: seq<Panel>,
    bad: seq<BadRegion>,
    groups: seq<RigidGroup>,
    collections: seq<Collection>,
    defaults: Panel,
    maskGood: real, maskBad: real,
    pathDim: int, dimDim: int,
    wavelengthFrom: Option<string>,
    peakList: Option<string>,
    photonEnergyBandwidth: real,
    photonEnergyScale: real)

  /**
   * The panel defaults before any line is read. The gain fields are not
   * set explicitly, so they keep the zero the template was allocated with.
   */
  const CallocDefaults := Panel(
    [], -1, -1, -1, -1, None, None, None, 0.0, Finite(-1.0), 0,
    Vec3(1.0, 0.0, 0.0), Vec3(0.0, 1.0, 0.0), None, None,
    Some(0.0), Some(0.0), None, None, None, None, None, None, None)

  /** The template before any line is read. */
  const EmptyTemplate := DataTemplate(
    [], [], [], [], CallocDefaults, 0.0, 0.0, 0, 0, None, None, -1.0, -1.0)

  /** The defaults with the gains unset (NaN), as the check that a panel has a gain expects. */
  const IntendedDefaults := CallocDefaults.(aduPerEv := None, aduPerPhoton := None)

  /** The template before any line is read, with the gains unset. */
  const IntendedEmptyTemplate := EmptyTemplate.(defaults := IntendedDefaults)

  /** new_panel: a copy of the defaults as they stand, with the new name. */
  function NewPanel(defaults: Panel, name: string): (p: Panel)
    ensures p.name == name
  {
    defaults.(name := name)
  }

  /** new_bad_region: no bounds for x/y, zero fs/ss bounds, frame unassigned, no panel scope. */
  function NewBadRegion(name: string): (b: BadRegion)
    ensures b.name == name && b.frame == Unassigned && b.panel.None?
    ensures b.minX.None? && b.maxX.None? && b.minY.None? && b.maxY.None?
    ensures b.minFs == 0 && b.maxFs == 0 && b.minSs == 0 && b.maxSs == 0
  {
    BadRegion(name, None, None, None, None, 0, 0, 0, 0, Unassigned, None)
  }

  function PanelNames(ps: seq<Panel>): (r: seq<string>)
    ensures |r| == |ps| && forall i :: 0 <= i < |ps| ==> r[i] == ps[i].name
  {
    seq(|ps|, i requires 0 <= i < |ps| => ps[i].name)
  }

  // The same name list for each of the other named kinds: bad regions,
  // rigid groups and rigid-group collections.

  function BadNames(bs: seq<BadRegion>): (r: seq<string>)
    ensures |r| == |bs| && forall i :: 0 <= i < |bs| ==> r[i] == bs[i].name
  {
    seq(|bs|, i requires 0 <= i < |bs| => bs[i].name)
  }

  function GroupNames(gs: seq<RigidGroup>): (r: seq<string>)
    ensures |r| == |gs| && forall i :: 0 <= i < |gs| ==> r[i] == gs[i].name
  {
    seq(|gs|, i requires 0 <= i < |gs| => gs[i].name)
  }

  function CollectionNames(cs: seq<Collection>): (r: seq<string>)
    ensures |r| == |cs| && forall i :: 0 <= i < |cs| ==> r[i] == cs[i].name
  {
    seq(|cs|, i requires 0 <= i < |cs| => cs[i].name)
  }

  /** No name occurs twice. */
  predicate Distinct(names: seq<string>) {
    forall i, j :: 0 <= i < j < |names| ==> names[i] != names[j]
  }
}
