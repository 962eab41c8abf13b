/**
 * The parts of the HDF5 image code that do not touch a file: splitting a
 * dataset path into group and object, the list of header fields to copy,
 * the grouping of panels by the dataset they are written to, the rule that
 * makes a pixel bad, and the stacking of panels into one tall image.
 */
module H5 {
  import opened Wrappers
  import opened Text
  import opened Geometry

  // ---------------------------------------------------------------------
  // split_group_and_object
  // ---------------------------------------------------------------------

  /** strpbrk(s + from, "/"): the first '/' at or after position `from`. */
  function FindFrom(s: string, from: nat): (r: Option<nat>)
    ensures r.None? ==> forall i :: from <= i < |s| ==> s[i] != '/'
    ensures r.Some? ==> from <= r.value < |s| && s[r.value] == '/'
    ensures r.Some? ==> forall i :: from <= i < r.value ==> s[i] != '/'
    decreases |s| - from
  {
    if from >= |s| then None
    else if s[from] == '/' then Some(from)
    else FindFrom(s, from + 1)
  }

  /** The last '/' after the first character. */
  function LastSlash(s: string): (r: Option<nat>)
    ensures r.None? <==> forall i :: 1 <= i < |s| ==> s[i] != '/'
    ensures r.Some? ==> 1 <= r.value < |s| && s[r.value] == '/'
    ensures r.Some? ==> forall i :: r.value < i < |s| ==> s[i] != '/'
  {
    if |s| <= 1 then None
    else if s[|s| - 1] == '/' then Some(|s| - 1)
    else
      var r := LastSlash(s[..|s| - 1]);
      assert forall i :: 1 <= i < |s| - 1 ==> s[..|s| - 1][i] == s[i];
      r
  }

  /**
   * What split_group_and_object yields: with a '/' after the first
   * character, the group before the last one and the object after it;
   * otherwise no group and the whole path.
   */
  function SplitPath(path: string): (r: (Option<string>, string))
    ensures r.0.Some? ==> r.0.value + "/" + r.1 == path && '/' !in r.1 && r.0.value != []
    ensures r.0.None? <==> forall i :: 1 <= i < |path| ==> path[i] != '/'
    ensures r.0.None? ==> r.1 == path
  {
    match LastSlash(path)
    case None => (None, path)
    case Some(k) =>
      assert path == path[..k] + "/" + path[k + 1..];
      (Some(path[..k]), path[k + 1..])
  }

  /** The loop of split_group_and_object, which keeps the position of the latest '/' found. */
  method SplitGroupAndObject(path: string) returns (group: Option<string>, obj: string)
    requires path != []
    ensures (group, obj) == SplitPath(path)
  {
    var store := 0;
    var sep := FindFrom(path, 1);
    while sep.Some?
      invariant store == 0 || (1 <= store < |path| && path[store] == '/')
      invariant sep.Some? ==> store < sep.value < |path| && path[sep.value] == '/'
      invariant sep.Some? ==> forall i :: 1 <= i < sep.value && path[i] == '/' ==> i <= store
      invariant sep.None? ==> forall i :: 1 <= i < |path| && path[i] == '/' ==> i <= store
      decreases |path| - store
    {
      store := sep.value;
      sep := FindFrom(path, store + 1);
    }
    if store == 0 {
      group, obj := None, path;
    } else {
      group, obj := Some(path[..store]), path[store + 1..];
    }
  }

  /** "/data" has no group, as the leading '/' is never a separator. */
  lemma SplitRootObject()
    ensures SplitPath("/data") == (None, "/data")
  {
  }

  // ---------------------------------------------------------------------
  // The copy-field list
  // ---------------------------------------------------------------------

  /** add_copy_hdf5_field on the list of names: a name already present is not added again. */
  function AddedField(fields: seq<string>, name: string): (r: seq<string>)
    ensures name in r
    ensures name in fields ==> r == fields
    ensures name !in fields ==> r == fields + [name]
  {
    if name in fields then fields else fields + [name]
  }

  /** Adding a name twice is adding it once. */
  lemma AddedFieldIdempotent(fields: seq<string>, name: string)
    ensures AddedField(AddedField(fields, name), name) == AddedField(fields, name)
  {
  }

  /** The list never holds a name twice. */
  lemma AddedFieldDistinct(fields: seq<string>, name: string)
    requires Distinct(fields)
    ensures Distinct(AddedField(fields, name))
  {
    if name !in fields {
      var r := fields + [name];
      forall i, j | 0 <= i < j < |r|
        ensures r[i] != r[j]
      {
        if j == |fields| {
          assert r[i] == fields[i];
        }
      }
    }
  }

  /** struct copy_hdf5_field: `buf` is the field array, its length max_fields, and `n` is n_fields. */
  class CopyFieldList {
    var buf: array<string>
    var n: nat

    predicate Valid()
      reads this, buf
    {
      n <= buf.Length && Distinct(buf[..n])
    }

    function Fields(): seq<string>
      reads this, buf
      requires Valid()
    {
      buf[..n]
    }

    /** new_copy_hdf5_field_list: no fields, room for 32. */
    constructor ()
      ensures Valid() && Fields() == [] && buf.Length == 32
    {
      buf := new string[32];
      n := 0;
    }

    /** add_copy_hdf5_field: the name is looked for first; a full list grows by 32 before the name is appended. */
    method AddField(name: string)
      requires Valid()
      modifies this, buf
      ensures Valid()
      ensures Fields() == AddedField(old(Fields()), name)
      ensures buf.Length == if name !in old(Fields()) && old(n) == old(buf.Length) then old(buf.Length) + 32 else old(buf.Length)
    {
      for i := 0 to n
        invariant name !in buf[..i]
      {
        if buf[i] == name {
          return;
        }
        assert buf[..i + 1] == buf[..i] + [buf[i]];
      }
      assert buf[..n] == Fields();
      AddedFieldDistinct(Fields(), name);
      if n == buf.Length {
        var nb := new string[buf.Length + 32];
        forall k | 0 <= k < n {
          nb[k] := buf[k];
        }
        buf := nb;
      }
      ghost var before := buf[..n];
      buf[n] := name;
      n := n + 1;
      assert buf[..n] == before + [name];
    }
  }

  // ---------------------------------------------------------------------
  // Write locations
  // ---------------------------------------------------------------------

  /** struct hdf5_write_location: a dataset path, the panels written to it and the extent they need. */
  datatype WriteLocation = WriteLocation(location: string, panels: seq<nat>, maxFs: int, maxSs: int)

  /** The dataset a panel is written to: its data path, or the default location. */
  function LocationOf(p: Panel, default: string): string {
    p.data.GetOr(default)
  }

  function LocationNames(ls: seq<WriteLocation>): (r: seq<string>)
    ensures |r| == |ls| && forall i :: 0 <= i < |ls| ==> r[i] == ls[i].location
  {
    seq(|ls|, i requires 0 <= i < |ls| => ls[i].location)
  }

  /** A location that receives panel pi: the index appended, the extent widened to the panel's. */
  function Join(l: WriteLocation, pi: nat, p: Panel): WriteLocation {
    WriteLocation(l.location, l.panels + [pi],
                  if p.origMaxFs > l.maxFs then p.origMaxFs else l.maxFs,
                  if p.origMaxSs > l.maxSs then p.origMaxSs else l.maxSs)
  }

  /** One panel of the grouping loop: every location with its path receives it; without one, a new location is appended. */
  function Place(ls: seq<WriteLocation>, pi: nat, p: Panel, default: string): seq<WriteLocation> {
    var loc := LocationOf(p, default);
    if loc in LocationNames(ls) then
      seq(|ls|, li requires 0 <= li < |ls| => if ls[li].location == loc then Join(ls[li], pi, p) else ls[li])
    else ls + [WriteLocation(loc, [pi], p.origMaxFs, p.origMaxSs)]
  }

  /** The locations after panels 0..k-1; the first location is panel 0's, empty, with a zero extent. */
  function Grouped(ps: seq<Panel>, default: string, k: nat): seq<WriteLocation>
    requires 1 <= |ps| && k <= |ps|
  {
    if k == 0 then [WriteLocation(LocationOf(ps[0], default), [], 0, 0)]
    else Place(Grouped(ps, default, k - 1), k - 1, ps[k - 1], default)
  }

  /**
   * The location loop of hdf5_write_image: the first location is set up
   * from panel 0, then each panel is compared with every location so far.
   * `element` is the default location, "/data/data" when it is NULL.
   */
  method GroupLocations(ps: seq<Panel>, element: Option<string>) returns (locs: seq<WriteLocation>)
    requires |ps| >= 1
    ensures locs == Grouped(ps, element.GetOr("/data/data"), |ps|)
  {
    var default := element.GetOr("/data/data");
    locs := [WriteLocation(LocationOf(ps[0], default), [], 0, 0)];
    for pi := 0 to |ps|
      invariant locs == Grouped(ps, default, pi)
    {
      var p := ps[pi];
      var loc := LocationOf(p, default);
      var processed := false;
      ghost var before := locs;
      for li := 0 to |locs|
        invariant |locs| == |before|
        invariant processed <==> loc in LocationNames(before)[..li]
        invariant forall j :: 0 <= j < |before| ==>
          locs[j] == if j < li && before[j].location == loc then Join(before[j], pi, p) else before[j]
      {
        assert LocationNames(before)[..li + 1] == LocationNames(before)[..li] + [before[li].location];
        if locs[li].location == loc {
          locs := locs[li := Join(locs[li], pi, p)];
          processed := true;
        }
      }
      assert LocationNames(before)[..|before|] == LocationNames(before);
      if !processed {
        locs := locs + [WriteLocation(loc, [pi], p.origMaxFs, p.origMaxSs)];
      }
    }
  }

  /** Some location holds panel pi. */
  predicate Held(ls: seq<WriteLocation>, pi: nat) {
    exists li :: 0 <= li < |ls| && pi in ls[li].panels
  }

  /** Every index a location holds is one of the first k panels, written to that location's path. */
  predicate MembersMatch(ls: seq<WriteLocation>, ps: seq<Panel>, default: string, k: nat)
    requires k <= |ps|
  {
    forall li, j :: 0 <= li < |ls| && 0 <= j < |ls[li].panels| ==>
      ls[li].panels[j] < k && LocationOf(ps[ls[li].panels[j]], default) == ls[li].location
  }

  /** Each location's extent covers those of its panels. */
  predicate ExtentsCover(ls: seq<WriteLocation>, ps: seq<Panel>)
  {
    forall li, j :: 0 <= li < |ls| && 0 <= j < |ls[li].panels| && ls[li].panels[j] < |ps| ==>
      ps[ls[li].panels[j]].origMaxFs <= ls[li].maxFs && ps[ls[li].panels[j]].origMaxSs <= ls[li].maxSs
  }

  /** Each location holds its panels in increasing order. */
  predicate Increasing(ls: seq<WriteLocation>) {
    forall li, i, j :: 0 <= li < |ls| && 0 <= i < j < |ls[li].panels| ==> ls[li].panels[i] < ls[li].panels[j]
  }

  /** The shape of one step: the matching locations joined, or one new location. */
  lemma PlaceShape(ls: seq<WriteLocation>, pi: nat, p: Panel, default: string)
    ensures var loc := LocationOf(p, default); var r := Place(ls, pi, p, default);
      && (loc in LocationNames(ls) ==> LocationNames(r) == LocationNames(ls))
      && (loc !in LocationNames(ls) ==> r == ls + [WriteLocation(loc, [pi], p.origMaxFs, p.origMaxSs)])
  {
  }

  lemma {:induction false} GroupedDistinct(ps: seq<Panel>, default: string, k: nat)
    requires 1 <= |ps| && k <= |ps|
    ensures Distinct(LocationNames(Grouped(ps, default, k)))
    ensures |Grouped(ps, default, k)| >= 1 && Grouped(ps, default, k)[0].location == LocationOf(ps[0], default)
  {
    if k > 0 {
      GroupedDistinct(ps, default, k - 1);
      var ls := Grouped(ps, default, k - 1);
      var loc := LocationOf(ps[k - 1], default);
      PlaceShape(ls, k - 1, ps[k - 1], default);
      if loc !in LocationNames(ls) {
        var r := Grouped(ps, default, k);
        assert LocationNames(r) == LocationNames(ls) + [loc];
      }
    }
  }

  lemma {:induction false} GroupedMembers(ps: seq<Panel>, default: string, k: nat)
    requires 1 <= |ps| && k <= |ps|
    ensures MembersMatch(Grouped(ps, default, k), ps, default, k)
    ensures ExtentsCover(Grouped(ps, default, k), ps)
  {
    if k > 0 {
      GroupedMembers(ps, default, k - 1);
      var ls := Grouped(ps, default, k - 1);
      var p := ps[k - 1];
      var loc := LocationOf(p, default);
      var r := Grouped(ps, default, k);
      if loc in LocationNames(ls) {
        forall li, j | 0 <= li < |r| && 0 <= j < |r[li].panels|
          ensures r[li].panels[j] < k && LocationOf(ps[r[li].panels[j]], default) == r[li].location
          ensures ps[r[li].panels[j]].origMaxFs <= r[li].maxFs && ps[r[li].panels[j]].origMaxSs <= r[li].maxSs
        {
          if ls[li].location != loc || j < |ls[li].panels| {
            assert r[li].panels[j] == ls[li].panels[j];
          }
        }
      }
    }
  }

  lemma {:induction false} GroupedIncreasing(ps: seq<Panel>, default: string, k: nat)
    requires 1 <= |ps| && k <= |ps|
    ensures Increasing(Grouped(ps, default, k))
  {
    if k > 0 {
      GroupedIncreasing(ps, default, k - 1);
      GroupedMembers(ps, default, k - 1);
      var ls := Grouped(ps, default, k - 1);
      var loc := LocationOf(ps[k - 1], default);
      var r := Grouped(ps, default, k);
      if loc in LocationNames(ls) {
        forall li, i, j | 0 <= li < |r| && 0 <= i < j < |r[li].panels|
          ensures r[li].panels[i] < r[li].panels[j]
        {
          assert r[li].panels[i] == ls[li].panels[i];
          if ls[li].location != loc || j < |ls[li].panels| {
            assert r[li].panels[j] == ls[li].panels[j];
          }
        }
      }
    }
  }

  lemma {:induction false} GroupedCovers(ps: seq<Panel>, default: string, k: nat)
    requires 1 <= |ps| && k <= |ps|
    ensures forall pi :: 0 <= pi < k ==> Held(Grouped(ps, default, k), pi)
  {
    if k > 0 {
      GroupedCovers(ps, default, k - 1);
      var ls := Grouped(ps, default, k - 1);
      var p := ps[k - 1];
      var loc := LocationOf(p, default);
      var r := Grouped(ps, default, k);
      forall q | 0 <= q < k
        ensures Held(r, q)
      {
        if loc in LocationNames(ls) {
          var m :| 0 <= m < |ls| && ls[m].location == loc;
          if q < k - 1 {
            assert Held(ls, q);
            var li :| 0 <= li < |ls| && q in ls[li].panels;
            assert q in r[li].panels;
          } else {
            assert q in r[m].panels;
          }
        } else {
          if q < k - 1 {
            assert Held(ls, q);
            var li :| 0 <= li < |ls| && q in ls[li].panels;
            assert r[li] == ls[li];
          } else {
            assert q in r[|ls|].panels;
          }
        }
      }
    }
  }

  /**
   * Every panel is written to exactly one location, the one with its path,
   * and that location's extent covers the panel's.
   */
  lemma GroupedExactly(ps: seq<Panel>, default: string, pi: nat)
    requires pi < |ps|
    ensures var ls := Grouped(ps, default, |ps|);
      exists li :: 0 <= li < |ls| && ls[li].location == LocationOf(ps[pi], default) && pi in ls[li].panels
        && ps[pi].origMaxFs <= ls[li].maxFs && ps[pi].origMaxSs <= ls[li].maxSs
        && forall lj :: 0 <= lj < |ls| && lj != li ==> pi !in ls[lj].panels
  {
    GroupedCovers(ps, default, |ps|);
    GroupedMembers(ps, default, |ps|);
    GroupedDistinct(ps, default, |ps|);
    var ls := Grouped(ps, default, |ps|);
    assert Held(ls, pi);
    var li :| 0 <= li < |ls| && pi in ls[li].panels;
    var j :| 0 <= j < |ls[li].panels| && ls[li].panels[j] == pi;
    assert ls[li].location == LocationOf(ps[pi], default);
    forall lj | 0 <= lj < |ls| && lj != li
      ensures pi !in ls[lj].panels
    {
    }
  }

  // ---------------------------------------------------------------------
  // Bad pixels
  // ---------------------------------------------------------------------

  /**
   * The rule of unpack_panels: a pixel is bad on a panel marked no_index, in
   * a bad region, or, when the image has flags, if its flags lack a bit of
   * mask_good or carry a bit of mask_bad.
   */
  predicate PixelIsBad(noIndex: bool, inBadRegion: bool, flags: Option<bv32>, maskGood: bv32, maskBad: bv32) {
    || noIndex
    || inBadRegion
    || (flags.Some? && ((flags.value & maskGood) != maskGood || flags.value & maskBad != 0))
  }

  /** Bit b of x. */
  predicate Bit(x: bv32, b: nat)
    requires b < 32
  {
    x & (1 as bv32 << b) != 0
  }

  /** Flags that keep every bit of mask_good and none of mask_bad leave the pixel as the rest of the rule says. */
  lemma FlagsAgree(noIndex: bool, inBadRegion: bool, f: bv32, maskGood: bv32, maskBad: bv32)
    requires f & maskGood == maskGood && f & maskBad == 0
    ensures PixelIsBad(noIndex, inBadRegion, Some(f), maskGood, maskBad) == (noIndex || inBadRegion)
  {
  }

  /** A flag bit that mask_bad has makes the pixel bad, whatever the rest. */
  lemma BadBitMarks(noIndex: bool, inBadRegion: bool, f: bv32, maskGood: bv32, maskBad: bv32, b: nat)
    requires b < 32 && Bit(f, b) && Bit(maskBad, b)
    ensures PixelIsBad(noIndex, inBadRegion, Some(f), maskGood, maskBad)
  {
    var m := 1 as bv32 << b;
    assert (f & maskBad) & m == (f & m) & (maskBad & m);
  }

  /** A bit of mask_good missing from the flags makes the pixel bad, whatever the rest. */
  lemma MissingGoodBitMarks(noIndex: bool, inBadRegion: bool, f: bv32, maskGood: bv32, maskBad: bv32, b: nat)
    requires b < 32 && !Bit(f, b) && Bit(maskGood, b)
    ensures PixelIsBad(noIndex, inBadRegion, Some(f), maskGood, maskBad)
  {
    var m := 1 as bv32 << b;
    assert (f & maskGood) & m == (f & m) & (maskGood & m);
  }

  // ---------------------------------------------------------------------
  // Panel stacking in hdf5_read2
  // ---------------------------------------------------------------------

  /** The fields of struct panel that hdf5_read2 reads and sets. */
  datatype StackPanel = StackPanel(
    w: int, h: int,
    minFs: int, maxFs: int, minSs: int, maxSs: int,
    origMinFs: int, origMaxFs: int, origMinSs: int, origMaxSs: int,
    mask: Option<string>)

  /** Whether every panel has the width of panel 0, which hdf5_read2 requires. */
  predicate SameWidth(ps: seq<StackPanel>)
    requires |ps| >= 1
  {
    forall i :: 0 <= i < |ps| ==> ps[i].w == ps[0].w
  }

  /** A panel placed at row cur of the stacked image: unset original extents (-1) become the old ones first. */
  function Placed(p: StackPanel, pw: int, cur: int): (q: StackPanel)
    ensures q.minFs == 0 && q.maxFs == pw - 1 && q.minSs == cur && q.maxSs == cur + p.h - 1
    ensures q.w == p.w && q.h == p.h && q.mask == p.mask
    ensures q.origMinFs == (if p.origMinFs == -1 then p.minFs else p.origMinFs)
    ensures q.origMaxFs == (if p.origMaxFs == -1 then p.maxFs else p.origMaxFs)
    ensures q.origMinSs == (if p.origMinSs == -1 then p.minSs else p.origMinSs)
    ensures q.origMaxSs == (if p.origMaxSs == -1 then p.maxSs else p.origMaxSs)
  {
    p.(origMinFs := if p.origMinFs == -1 then p.minFs else p.origMinFs,
       origMaxFs := if p.origMaxFs == -1 then p.maxFs else p.origMaxFs,
       origMinSs := if p.origMinSs == -1 then p.minSs else p.origMinSs,
       origMaxSs := if p.origMaxSs == -1 then p.maxSs else p.origMaxSs,
       minFs := 0, maxFs := pw - 1, minSs := cur, maxSs := cur + p.h - 1)
  }

  /** The sum of the panel heights. */
  function Rows(ps: seq<StackPanel>): int {
    if ps == [] then 0 else Rows(ps[..|ps| - 1]) + ps[|ps| - 1].h
  }

  lemma RowsSnoc(ps: seq<StackPanel>, i: nat)
    requires i < |ps|
    ensures Rows(ps[..i + 1]) == Rows(ps[..i]) + ps[i].h
  {
    assert ps[..i + 1][..i] == ps[..i];
  }

  /** The panels placed one under another: panel i starts at the row after all earlier panels. */
  function Stack(ps: seq<StackPanel>, pw: int): (r: seq<StackPanel>)
    ensures |r| == |ps|
  {
    seq(|ps|, i requires 0 <= i < |ps| => Placed(ps[i], pw, Rows(ps[..i])))
  }

  /** The first panel starts at row 0 and each next one at the row after the last row of the one before. */
  lemma StackContiguous(ps: seq<StackPanel>, pw: int, i: nat)
    requires i + 1 < |ps|
    ensures Stack(ps, pw)[0].minSs == 0
    ensures Stack(ps, pw)[i + 1].minSs == Stack(ps, pw)[i].maxSs + 1
  {
    RowsSnoc(ps, i);
  }

  /** The last panel ends at the last row of an image as tall as all the panels. */
  lemma StackEnds(ps: seq<StackPanel>, pw: int)
    requires |ps| >= 1
    ensures Stack(ps, pw)[|ps| - 1].maxSs == Rows(ps) - 1
  {
    RowsSnoc(ps, |ps| - 1);
    assert ps[..|ps|] == ps;
  }

  lemma {:induction false} RowsGrow(ps: seq<StackPanel>, i: nat, j: nat)
    requires i <= j <= |ps| && forall k :: 0 <= k < |ps| ==> ps[k].h >= 1
    ensures Rows(ps[..j]) >= Rows(ps[..i]) + (j - i)
    decreases j
  {
    if i < j {
      RowsGrow(ps, i, j - 1);
      RowsSnoc(ps, j - 1);
    }
  }

  /** Panels of positive height never share a row of the stacked image. */
  lemma StackDisjoint(ps: seq<StackPanel>, pw: int, i: nat, j: nat)
    requires i < j < |ps| && forall k :: 0 <= k < |ps| ==> ps[k].h >= 1
    ensures Stack(ps, pw)[i].maxSs < Stack(ps, pw)[j].minSs
  {
    RowsSnoc(ps, i);
    RowsGrow(ps, i + 1, j);
  }

  /**
   * The geometry part of hdf5_read2: None (return 1) unless every panel has
   * the width of panel 0; otherwise the panels stacked from row 0, with the
   * image as wide as a panel and as tall as all of them.
   */
  method StackPanels(ps: seq<StackPanel>) returns (r: Option<(seq<StackPanel>, int, int)>)
    requires |ps| >= 1
    ensures r.None? <==> !SameWidth(ps)
    ensures r.Some? ==> r.value == (Stack(ps, ps[0].w), ps[0].w, Rows(ps))
  {
    var pw := ps[0].w;
    var sum := 0;
    for pi := 0 to |ps|
      invariant forall i :: 0 <= i < pi ==> ps[i].w == pw
      invariant sum == Rows(ps[..pi])
    {
      if ps[pi].w != pw {
        return None;
      }
      RowsSnoc(ps, pi);
      sum := sum + ps[pi].h;
    }
    assert ps[..|ps|] == ps;
    var out := [];
    var cur := 0;
    for pi := 0 to |ps|
      invariant cur == Rows(ps[..pi])
      invariant out == Stack(ps, pw)[..pi]
    {
      RowsSnoc(ps, pi);
      assert Stack(ps, pw)[..pi + 1] == Stack(ps, pw)[..pi] + [Placed(ps[pi], pw, cur)];
      out := out + [Placed(ps[pi], pw, cur)];
      cur := cur + ps[pi].h;
    }
    assert Stack(ps, pw)[..|ps|] == Stack(ps, pw);
    return Some((out, pw, sum));
  }

  /** hdf5_read2 as written: mask_is_present starts with whatever value `initial` the stack held, and a panel mask sets it. */
  function MaskPresentAsWritten(ps: seq<StackPanel>, initial: bool): bool {
    initial || exists i :: 0 <= i < |ps| && ps[i].mask.Some?
  }

  /** For a detector without masks the outcome depends on the uninitialised value. */
  lemma MaskPresentAsWrittenUndetermined(ps: seq<StackPanel>)
    requires forall i :: 0 <= i < |ps| ==> ps[i].mask.None?
    ensures MaskPresentAsWritten(ps, true) != MaskPresentAsWritten(ps, false)
  {
  }

  /** As intended, the flags are allocated exactly when some panel has a mask. */
  function MaskPresent(ps: seq<StackPanel>): (r: bool)
    ensures r <==> exists i :: 0 <= i < |ps| && ps[i].mask.Some?
  {
    MaskPresentAsWritten(ps, false)
  }

  /** The loop that sets it. */
  method FindMaskPresent(ps: seq<StackPanel>) returns (present: bool)
    ensures present == MaskPresent(ps)
  {
    present := false;
    for pi := 0 to |ps|
      invariant present <==> exists i :: 0 <= i < pi && ps[i].mask.Some?
    {
      if ps[pi].mask.Some? {
        present := true;
      }
    }
  }
}
