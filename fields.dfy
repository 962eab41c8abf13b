/**
 * The per-field parsers of the geometry format: parse_field_for_panel,
 * check_badr_fsss and parse_field_bad, with atob. Each takes the object
 * as it stands and gives the updated object and whether the field rejects
 * the template.
 */
module Fields {
  import opened Wrappers
  import opened Text
  import opened Direction
  import opened Geometry

  /** atob: "true" and "false" in any letter case, otherwise atoi. */
  function Atob(a: string): int {
    if EqualsIgnoreCase(a, "true") then 1
    else if EqualsIgnoreCase(a, "false") then 0
    else Atoi(a)
  }

  /** The words are matched in any letter case; anything else is read by atoi. */
  lemma AtobCases(a: string)
    ensures EqualsIgnoreCase(a, "true") ==> Atob(a) == 1
    ensures EqualsIgnoreCase(a, "false") ==> Atob(a) == 0
    ensures !EqualsIgnoreCase(a, "true") && !EqualsIgnoreCase(a, "false") ==> Atob(a) == Atoi(a)
  {
  }

  /** "True" and "FALSE" are read as words, a number as its digits. */
  lemma AtobExamples()
    ensures Atob("True") == 1 && Atob("FALSE") == 0
    ensures Atob("1") == 1 && Atob("0") == 0
  {
    assert EqualsIgnoreCase("True", "true");
    assert EqualsIgnoreCase("FALSE", "false");
    assert !EqualsIgnoreCase("1", "true") && !EqualsIgnoreCase("0", "true");
    assert !EqualsIgnoreCase("1", "false") && !EqualsIgnoreCase("0", "false");
  }

  /** A digit string, which is never "true" or "false", is read as its decimal value. */
  lemma AtobDigits(a: string)
    requires AllDigits(a)
    ensures Atob(a) == DigitsValue(a)
  {
    assert !EqualsIgnoreCase(a, "true") by {
      if |a| == 4 { assert LowerAscii(a[0]) != LowerAscii("true"[0]); }
    }
    assert !EqualsIgnoreCase(a, "false") by {
      if |a| == 5 { assert LowerAscii(a[0]) != LowerAscii("false"[0]); }
    }
    if a != [] {
      AtoiDigits(a);
    } else {
      assert Run(a, 0, ScanStart) == ScanStart;
    }
  }

  /** The keys parse_field_for_panel recognises by exact comparison. */
  const PanelKeys: set<string> := {
    "min_fs", "max_fs", "min_ss", "max_ss", "corner_x", "corner_y",
    "rail_direction", "clen_for_centering", "adu_per_eV", "adu_per_photon",
    "rigid_group", "clen", "data", "mask", "mask_file", "saturation_map",
    "saturation_map_file", "coffset", "res", "max_adu", "badrow_direction",
    "no_index", "fs", "ss"}

  /** The branches of parse_field_for_panel, one per key it recognises, in the order of its tests. */
  datatype PanelKey =
    | MinFsKey | MaxFsKey | MinSsKey | MaxSsKey | CornerXKey | CornerYKey
    | RailDirectionKey | ClenForCenteringKey | AduPerEvKey | AduPerPhotonKey | RigidGroupKey
    | ClenKey | DataKey | MaskKey | MaskFileKey | SatmapKey | SatmapFileKey
    | CoffsetKey | ResKey | MaxAduKey | BadrowDirectionKey | NoIndexKey | FsKey | SsKey
    | DimKey(index: string) | UnknownKey

  /** The branch of parse_field_for_panel a key takes: the strcmp tests, then the "dim" prefix. */
  function PanelKeyOf(key: string): PanelKey {
    if key == "min_fs" then MinFsKey
    else if key == "max_fs" then MaxFsKey
    else if key == "min_ss" then MinSsKey
    else if key == "max_ss" then MaxSsKey
    else if key == "corner_x" then CornerXKey
    else if key == "corner_y" then CornerYKey
    else if key == "rail_direction" then RailDirectionKey
    else if key == "clen_for_centering" then ClenForCenteringKey
    else if key == "adu_per_eV" then AduPerEvKey
    else if key == "adu_per_photon" then AduPerPhotonKey
    else if key == "rigid_group" then RigidGroupKey
    else if key == "clen" then ClenKey
    else if key == "data" then DataKey
    else if key == "mask" then MaskKey
    else if key == "mask_file" then MaskFileKey
    else if key == "saturation_map" then SatmapKey
    else if key == "saturation_map_file" then SatmapFileKey
    else if key == "coffset" then CoffsetKey
    else if key == "res" then ResKey
    else if key == "max_adu" then MaxAduKey
    else if key == "badrow_direction" then BadrowDirectionKey
    else if key == "no_index" then NoIndexKey
    else if key == "fs" then FsKey
    else if key == "ss" then SsKey
    else if StartsWith(key, "dim") then DimKey(key[3..])
    else UnknownKey
  }

  /** Only the key "rigid_group" asks for a rigid group. */
  lemma RigidGroupKeyIff(key: string)
    ensures PanelKeyOf(key) == RigidGroupKey <==> key == "rigid_group"
  {
  }

  /** A "dim" key is classified with the rest of the key as its index. */
  lemma DimKeyIff(key: string)
    ensures PanelKeyOf(key).DimKey? <==> key !in PanelKeys && StartsWith(key, "dim")
    ensures PanelKeyOf(key).DimKey? ==> PanelKeyOf(key).index == key[3..]
  {
  }

  /** Every key outside the table and not starting with "dim" is unrecognised. */
  lemma UnknownKeyIff(key: string)
    ensures PanelKeyOf(key) == UnknownKey <==> key !in PanelKeys && !StartsWith(key, "dim")
  {
  }

  /** The field values that make parse_field_for_panel return a rejection. */
  predicate RejectingValue(k: PanelKey, val: string) {
    match k
    case DataKey => !StartsWith(val, "/")
    case MaskKey => !StartsWith(val, "/")
    case RailDirectionKey => !DirConv(val).ok
    case FsKey => !DirConv(val).ok
    case SsKey => !DirConv(val).ok
    case _ => false
  }

  /** The panel after one field, the rejection flag, and the rigid group the panel is to join. */
  datatype PanelUpdate = PanelUpdate(panel: Panel, reject: bool, group: Option<string>)

  /** A field that neither rejects nor joins a group. */
  function Quiet(p: Panel): PanelUpdate {
    PanelUpdate(p, false, None)
  }

  /** The index strtoul reads from the text after "dim", converted to the int it is stored in. */
  function DimEntry(index: string): int {
    ToInt32(Strtoul(index).value)
  }

  /**
   * A "dimN" key, given the text after "dim": the structure is created when
   * absent as soon as anything follows "dim"; the entry is set only when
   * strtoul reads that whole text and set_dim_structure_entry succeeds.
   */
  function DimField(p: Panel, index: string, val: string, h: DimHelpers): (r: Panel)
    ensures index == [] ==> r == p
    ensures index != [] ==> r.dims.Some?
    ensures p.dims.Some? && Strtoul(index).end != |index| ==> r == p
    ensures r.(dims := p.dims) == p
  {
    if index == [] then p
    else
      var ds := p.dims.GetOr(h.initial);
      if Strtoul(index).end == |index| then
        match h.setEntry(ds, DimEntry(index), val)
        case Some(d) => p.(dims := Some(d))
        case None => p.(dims := Some(ds))
      else p.(dims := Some(ds))
  }

  /** A decimal index sets the entry of that number. */
  lemma DimFieldNumber(p: Panel, t: string, val: string, h: DimHelpers)
    requires t != [] && AllDigits(t) && DigitsValue(t) < 0x8000_0000
    ensures var ds := p.dims.GetOr(h.initial);
      DimField(p, t, val, h).dims == Some(h.setEntry(ds, DigitsValue(t), val).GetOr(ds))
  {
    var ds := p.dims.GetOr(h.initial);
    StrtoulDigits(t);
    assert DimEntry(t) == DigitsValue(t) by {
      assert ToInt32(DigitsValue(t)) == DigitsValue(t);
    }
    assert DimField(p, t, val, h).dims == Some(h.setEntry(ds, DimEntry(t), val).GetOr(ds));
  }

  /** A '+' before a decimal index changes nothing. */
  lemma DimFieldPlus(p: Panel, t: string, val: string, h: DimHelpers)
    requires t != [] && AllDigits(t)
    ensures DimField(p, ['+'] + t, val, h) == DimField(p, t, val, h)
  {
    StrtoulDigits(t);
    StrtoulPlus(t);
    assert DimEntry(['+'] + t) == DimEntry(t);
  }

  /** A '-' before a decimal index sets the entry of the negated number, as the unsigned result wraps into an int. */
  lemma DimFieldMinus(p: Panel, t: string, val: string, h: DimHelpers)
    requires t != [] && AllDigits(t) && 0 < DigitsValue(t) <= 0x8000_0000
    ensures var ds := p.dims.GetOr(h.initial);
      DimField(p, ['-'] + t, val, h).dims == Some(h.setEntry(ds, -(DigitsValue(t) as int), val).GetOr(ds))
  {
    StrtoulMinus(t);
  }

  /** A text after "dim" that strtoul does not read whole sets no entry; an absent structure is still created. */
  lemma DimFieldRefused(p: Panel, index: string, val: string, h: DimHelpers)
    requires index != [] && Strtoul(index).end != |index|
    ensures DimField(p, index, val, h) == p.(dims := Some(p.dims.GetOr(h.initial)))
  {
  }

  /**
   * parse_field_for_panel, less the joining of a rigid group, which it hands
   * back in `group`. The pixel extents are ints in the template, so the
   * double atof reads is truncated toward zero; "res" is stored as its
   * reciprocal, which is an infinity of the zero's sign for a zero. "data" and "mask" store
   * the value even when it does not start with '/', and the direction
   * fields store what dir_conv accumulated even when it fails.
   */
  function PanelField(p: Panel, k: PanelKey, val: string, h: DimHelpers): (r: PanelUpdate)
    ensures r.panel.name == p.name
    ensures r.group.Some? <==> k == RigidGroupKey
    ensures r.group.Some? ==> r.group.value == val && r.panel == p
    ensures k == UnknownKey ==> r == Quiet(p)
  {
    match k
    case MinFsKey => Quiet(p.(origMinFs := Trunc(Atof(val))))
    case MaxFsKey => Quiet(p.(origMaxFs := Trunc(Atof(val))))
    case MinSsKey => Quiet(p.(origMinSs := Trunc(Atof(val))))
    case MaxSsKey => Quiet(p.(origMaxSs := Trunc(Atof(val))))
    case CornerXKey => Quiet(p.(cnx := Some(Atof(val))))
    case CornerYKey => Quiet(p.(cny := Some(Atof(val))))
    case RailDirectionKey =>
      var d := DirConv(val);
      PanelUpdate(p.(rail := Some(d.v)), !d.ok, None)
    case ClenForCenteringKey => Quiet(p.(clenForCentering := Some(Atof(val))))
    case AduPerEvKey => Quiet(p.(aduPerEv := Some(Atof(val))))
    case AduPerPhotonKey => Quiet(p.(aduPerPhoton := Some(Atof(val))))
    case RigidGroupKey => PanelUpdate(p, false, Some(val))
    case ClenKey => Quiet(p.(cnzFrom := Some(val)))
    case DataKey => PanelUpdate(p.(data := Some(val)), !StartsWith(val, "/"), None)
    case MaskKey => PanelUpdate(p.(mask := Some(val)), !StartsWith(val, "/"), None)
    case MaskFileKey => Quiet(p.(maskFile := Some(val)))
    case SatmapKey => Quiet(p.(satmap := Some(val)))
    case SatmapFileKey => Quiet(p.(satmapFile := Some(val)))
    case CoffsetKey => Quiet(p.(cnzOffset := Atof(val)))
    case ResKey =>
      Quiet(p.(pixelPitch := Reciprocal(Atof(val), NegativeZero(val))))
    case MaxAduKey => Quiet(p.(maxAdu := Some(Atof(val))))
    case BadrowDirectionKey => Quiet(p)
    case NoIndexKey => Quiet(p.(bad := Atob(val)))
    case FsKey =>
      var d := DirConv(val);
      PanelUpdate(p.(fs := d.v), !d.ok, None)
    case SsKey =>
      var d := DirConv(val);
      PanelUpdate(p.(ss := d.v), !d.ok, None)
    case DimKey(index) => Quiet(DimField(p, index, val, h))
    case UnknownKey => Quiet(p)
  }

  /** The field rejects exactly when the value is refused. */
  lemma PanelFieldRejects(p: Panel, k: PanelKey, val: string, h: DimHelpers)
    ensures PanelField(p, k, val, h).reject <==> RejectingValue(k, val)
  {
  }

  /** An unrecognised panel field is only logged: the panel is unchanged and nothing is rejected. */
  lemma UnrecognisedPanelField(p: Panel, key: string, val: string, h: DimHelpers)
    requires key !in PanelKeys && !StartsWith(key, "dim")
    ensures PanelField(p, PanelKeyOf(key), val, h) == Quiet(p)
  {
    UnknownKeyIff(key);
  }

  /** A "data" or "mask" location is stored even when it is refused for not starting with '/'. */
  lemma LocationStored(p: Panel, key: string, val: string, h: DimHelpers)
    requires key == "data" || key == "mask"
    ensures key == "data" ==> PanelField(p, PanelKeyOf(key), val, h).panel == p.(data := Some(val))
    ensures key == "mask" ==> PanelField(p, PanelKeyOf(key), val, h).panel == p.(mask := Some(val))
    ensures PanelField(p, PanelKeyOf(key), val, h).reject <==> !StartsWith(val, "/")
  {
    if key == "data" {
      assert PanelKeyOf(key) == DataKey;
    } else {
      assert PanelKeyOf(key) == MaskKey;
    }
  }

  /**
   * A resolution is stored as its reciprocal. A zero makes the pitch
   * infinite: negative for "-0" and the like, positive otherwise.
   */
  lemma ResolutionField(p: Panel, val: string, h: DimHelpers)
    ensures Atof(val) != 0.0 ==> PanelField(p, ResKey, val, h).panel.pixelPitch == Finite(1.0 / Atof(val))
    ensures Atof(val) == 0.0 && NegativeZero(val) ==> PanelField(p, ResKey, val, h).panel.pixelPitch == MinusInfinity
    ensures Atof(val) == 0.0 && !NegativeZero(val) ==> PanelField(p, ResKey, val, h).panel.pixelPitch == PlusInfinity
  {
  }

  /** "res = 0" gives a positive infinite pitch; "res = -0" a negative one, which the panel check refuses. */
  lemma SignedZeroResolution(p: Panel, h: DimHelpers)
    ensures PanelField(p, ResKey, "0", h).panel.pixelPitch == PlusInfinity
    ensures PanelField(p, ResKey, "-0", h).panel.pixelPitch == MinusInfinity
  {
    assert Atof("0") == 0.0;
    StrtodMinus("0");
    assert ['-'] + "0" == "-0";
  }

  /** The branches of parse_field_bad, in the order of its tests. */
  datatype BadKey =
    | BadMinXKey | BadMaxXKey | BadMinYKey | BadMaxYKey
    | BadMinFsKey | BadMaxFsKey | BadMinSsKey | BadMaxSsKey
    | BadPanelKey | BadUnknownKey

  function BadKeyOf(key: string): BadKey {
    if key == "min_x" then BadMinXKey
    else if key == "max_x" then BadMaxXKey
    else if key == "min_y" then BadMinYKey
    else if key == "max_y" then BadMaxYKey
    else if key == "min_fs" then BadMinFsKey
    else if key == "max_fs" then BadMaxFsKey
    else if key == "min_ss" then BadMinSsKey
    else if key == "max_ss" then BadMaxSsKey
    else if key == "panel" then BadPanelKey
    else BadUnknownKey
  }

  /** The frame a bad-region field belongs to, None for "panel" and unrecognised keys. */
  function FrameOf(k: BadKey): Option<Frame> {
    match k
    case BadMinXKey => Some(XYFrame)
    case BadMaxXKey => Some(XYFrame)
    case BadMinYKey => Some(XYFrame)
    case BadMaxYKey => Some(XYFrame)
    case BadMinFsKey => Some(FsSsFrame)
    case BadMaxFsKey => Some(FsSsFrame)
    case BadMinSsKey => Some(FsSsFrame)
    case BadMaxSsKey => Some(FsSsFrame)
    case _ => None
  }

  /** The x/y keys belong to the laboratory frame, the fs/ss keys to the pixel frame, and no other key to either. */
  lemma FrameOfKeyIff(key: string)
    ensures FrameOf(BadKeyOf(key)) == Some(XYFrame) <==> key in {"min_x", "max_x", "min_y", "max_y"}
    ensures FrameOf(BadKeyOf(key)) == Some(FsSsFrame) <==> key in {"min_fs", "max_fs", "min_ss", "max_ss"}
  {
  }

  datatype BadUpdate = BadUpdate(region: BadRegion, reject: bool)

  /** check_badr_fsss: the first frame fixes the region's frame; a different one later is refused. */
  function CheckFrame(b: BadRegion, f: Frame): BadUpdate {
    if b.frame == Unassigned then BadUpdate(b.(frame := f), false)
    else BadUpdate(b, f != b.frame)
  }

  /** parse_field_bad: the value is stored first, then the frame is checked. */
  function BadField(b: BadRegion, k: BadKey, val: string): (r: BadUpdate)
    ensures r.region.name == b.name
    ensures b.frame != Unassigned ==> r.region.frame == b.frame
    ensures FrameOf(k).None? ==> r.region.frame == b.frame && !r.reject
    ensures b.frame == Unassigned && FrameOf(k).Some? ==> r.region.frame == FrameOf(k).value
    ensures r.reject <==> b.frame != Unassigned && FrameOf(k).Some? && FrameOf(k).value != b.frame
    ensures k == BadPanelKey ==> r.region == b.(panel := Some(val))
    ensures k == BadUnknownKey ==> r.region == b
  {
    match k
    case BadMinXKey => CheckFrame(b.(minX := Some(Atof(val))), XYFrame)
    case BadMaxXKey => CheckFrame(b.(maxX := Some(Atof(val))), XYFrame)
    case BadMinYKey => CheckFrame(b.(minY := Some(Atof(val))), XYFrame)
    case BadMaxYKey => CheckFrame(b.(maxY := Some(Atof(val))), XYFrame)
    case BadMinFsKey => CheckFrame(b.(minFs := Trunc(Atof(val))), FsSsFrame)
    case BadMaxFsKey => CheckFrame(b.(maxFs := Trunc(Atof(val))), FsSsFrame)
    case BadMinSsKey => CheckFrame(b.(minSs := Trunc(Atof(val))), FsSsFrame)
    case BadMaxSsKey => CheckFrame(b.(maxSs := Trunc(Atof(val))), FsSsFrame)
    case BadPanelKey => BadUpdate(b.(panel := Some(val)), false)
    case BadUnknownKey => BadUpdate(b, false)
  }

  /** A region whose frame is assigned stays in that frame whatever fields follow. */
  lemma {:induction false} FrameSticks(b: BadRegion, keys: seq<BadKey>, vals: seq<string>)
    requires |keys| == |vals| && b.frame != Unassigned
    ensures BadFields(b, keys, vals).region.frame == b.frame
  {
    if keys != [] {
      FrameSticks(b, keys[..|keys| - 1], vals[..|vals| - 1]);
    }
  }

  /** A region fed several fields in order, with the rejections accumulated. */
  function BadFields(b: BadRegion, keys: seq<BadKey>, vals: seq<string>): BadUpdate
    requires |keys| == |vals|
  {
    if keys == [] then BadUpdate(b, false)
    else
      var u := BadFields(b, keys[..|keys| - 1], vals[..|vals| - 1]);
      var v := BadField(u.region, keys[|keys| - 1], vals[|vals| - 1]);
      BadUpdate(v.region, u.reject || v.reject)
  }

  /** Mixing the two frames in one region always rejects: an x/y field followed later by an fs/ss field, or the reverse. */
  lemma MixedFramesReject(b: BadRegion, keys: seq<BadKey>, vals: seq<string>, i: nat, j: nat)
    requires |keys| == |vals| && i < j < |keys|
    requires FrameOf(keys[i]).Some? && FrameOf(keys[j]).Some?
    requires FrameOf(keys[i]) != FrameOf(keys[j])
    ensures BadFields(b, keys, vals).reject
  {
    var g := BadFields(b, keys[..i], vals[..i]);
    var u := BadFields(b, keys[..i + 1], vals[..i + 1]);
    assert keys[..i + 1][..i] == keys[..i] && vals[..i + 1][..i] == vals[..i];
    assert keys[..i + 1][i] == keys[i];
    if g.region.frame != Unassigned && g.region.frame != FrameOf(keys[i]).value {
      RejectPersists(b, keys, vals, i + 1);
    } else {
      assert u.region.frame == FrameOf(keys[i]).value;
      PrefixFrame(b, keys, vals, i + 1, j);
      assert keys[..j + 1][..j] == keys[..j] && vals[..j + 1][..j] == vals[..j];
      assert keys[..j + 1][j] == keys[j];
      RejectPersists(b, keys, vals, j + 1);
    }
  }

  /** Once the frame is assigned after the first `m` fields, it is the same after the first `n`. */
  lemma {:induction false} PrefixFrame(b: BadRegion, keys: seq<BadKey>, vals: seq<string>, m: nat, n: nat)
    requires |keys| == |vals| && m <= n <= |keys|
    requires m > 0 || b.frame != Unassigned
    requires BadFields(b, keys[..m], vals[..m]).region.frame != Unassigned
    ensures BadFields(b, keys[..n], vals[..n]).region.frame == BadFields(b, keys[..m], vals[..m]).region.frame
  {
    if n > m {
      PrefixFrame(b, keys, vals, m, n - 1);
      assert keys[..n][..n - 1] == keys[..n - 1] && vals[..n][..n - 1] == vals[..n - 1];
    }
  }

  /** A rejection, once raised, is not withdrawn by later fields. */
  lemma {:induction false} RejectPersists(b: BadRegion, keys: seq<BadKey>, vals: seq<string>, n: nat)
    requires |keys| == |vals| && n <= |keys| && BadFields(b, keys[..n], vals[..n]).reject
    ensures BadFields(b, keys, vals).reject
    decreases |keys| - n
  {
    if n < |keys| {
      assert keys[..n + 1][..n] == keys[..n] && vals[..n + 1][..n] == vals[..n];
      RejectPersists(b, keys, vals, n + 1);
    } else {
      assert keys[..n] == keys && vals[..n] == vals;
    }
  }
}
