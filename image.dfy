/**
 * The parts of the image code that work on the data template: the list of
 * image features (peaks) that grows in blocks of 128, the crystal array and
 * the removal of flagged crystals, the bad-region test, the bad-pixel mask
 * of a panel and the length-unit suffix of a camera-length reference.
 */
module Image {
  import opened Wrappers
  import opened Text
  import opened Direction
  import opened Geometry

  // ---------------------------------------------------------------------
  // Image features
  // ---------------------------------------------------------------------

  /** struct imagefeature: position on a panel, panel number, intensity and name. */
  datatype Feature = Feature(fs: real, ss: real, pn: int, intensity: real, name: string)

  /** ImageFeatureList: `buf` is the allocated array, its length max_features, and `n` is n_features. */
  class FeatureList {
    var buf: array<Feature>
    var n: nat

    predicate Valid()
      reads this, buf
    {
      n <= buf.Length
    }

    /** The features held, in order. */
    function Features(): seq<Feature>
      reads this, buf
      requires Valid()
    {
      buf[..n]
    }

    /** image_feature_list_new: no features and nothing allocated. */
    constructor ()
      ensures Valid() && Features() == [] && buf.Length == 0
    {
      buf := new Feature[0];
      n := 0;
    }

    /** image_add_feature: appended at the end; a full list first grows by 128 slots. */
    method AddFeature(fs: real, ss: real, pn: int, intensity: real, name: string)
      requires Valid()
      modifies this, buf
      ensures Valid()
      ensures Features() == old(Features()) + [Feature(fs, ss, pn, intensity, name)]
      ensures buf.Length == if old(n) == old(buf.Length) then old(buf.Length) + 128 else old(buf.Length)
    {
      if n == buf.Length {
        var nb := new Feature[buf.Length + 128];
        forall k | 0 <= k < n {
          nb[k] := buf[k];
        }
        buf := nb;
      }
      buf[n] := Feature(fs, ss, pn, intensity, name);
      n := n + 1;
    }

    /** image_remove_feature: the later features move down one place. */
    method RemoveFeature(idx: nat)
      requires Valid() && idx < n
      modifies this, buf
      ensures Valid() && buf == old(buf)
      ensures Features() == old(Features())[..idx] + old(Features())[idx + 1..]
    {
      ghost var before := buf[..];
      ghost var fs := before[..n];
      for j := idx to n - 1
        invariant buf == old(buf) && n == old(n) && |before| == buf.Length
        invariant forall k :: 0 <= k < idx ==> buf[k] == before[k]
        invariant forall k :: idx <= k < j ==> buf[k] == before[k + 1]
        invariant forall k :: j <= k < buf.Length ==> buf[k] == before[k]
      {
        buf[j] := buf[j + 1];
      }
      n := n - 1;
      ghost var want := fs[..idx] + fs[idx + 1..];
      assert forall k :: 0 <= k < n ==> buf[k] == want[k];
      assert buf[..n] == want;
    }
  }

  /** image_feature_count: 0 for no list. */
  function FeatureCount(l: FeatureList?): (r: nat)
    reads l, if l == null then {} else {l.buf}
    requires l == null || l.Valid()
    ensures r == if l == null then 0 else |l.Features()|
  {
    if l == null then 0 else l.n
  }

  /** image_get_feature and image_get_feature_const: None (NULL) for no list or an index past the end. */
  function GetFeature(l: FeatureList?, idx: int): (r: Option<Feature>)
    reads l, if l == null then {} else {l.buf}
    requires l == null || (l.Valid() && idx >= 0)
    ensures r.None? <==> l == null || idx >= |l.Features()|
    ensures r.Some? ==> r.value == l.Features()[idx]
  {
    if l == null || idx >= l.n then None else Some(l.buf[idx])
  }

  /**
   * image_feature_list_copy: a new list with the same features in the same
   * order; the copy's capacity is its length (see the copy finding).
   */
  method CopyFeatureList(l: FeatureList?) returns (c: FeatureList?)
    requires l == null || l.Valid()
    ensures (c == null) == (l == null)
    ensures c != null ==> c.Valid() && c.Features() == l.Features() && c.buf.Length == l.n
  {
    if l == null {
      return null;
    }
    c := new FeatureList();
    var nb := new Feature[l.n];
    var nf := 0;
    for i := 0 to l.n
      invariant nf == i
      invariant forall k :: 0 <= k < i ==> nb[k] == l.buf[k]
    {
      var f := GetFeature(l, i);
      if f.Some? {
        nb[nf] := l.buf[i];
        nf := nf + 1;
      }
    }
    c.buf := nb;
    c.n := nf;
    assert c.Features() == l.Features();
  }

  /** The counters of a feature list: n_features, max_features and the slots actually allocated. */
  datatype Shape = Shape(count: nat, max: nat, slots: nat)

  /** image_add_feature on the counters: the slot it writes and the counters after. */
  function AddSlot(s: Shape): (nat, Shape) {
    var g := if s.count == s.max then Shape(s.count, s.max + 128, s.max + 128) else s;
    (g.count, g.(count := g.count + 1))
  }

  /** image_feature_list_copy as written: n features allocated, but max_features left at 0 by image_feature_list_new. */
  function CopyShapeAsWritten(n: nat): Shape {
    Shape(n, 0, n)
  }

  /** Adding to a copy of a non-empty list writes the slot just past its allocation. */
  lemma CopyThenAddOverflows(n: nat)
    requires n > 0
    ensures AddSlot(CopyShapeAsWritten(n)).0 == CopyShapeAsWritten(n).slots
    ensures AddSlot(CopyShapeAsWritten(n)).1.slots == n
  {
  }

  /** The copy as intended: max_features is the number allocated. */
  function CopyShape(n: nat): Shape {
    Shape(n, n, n)
  }

  /** A list whose max_features is its allocation always writes inside it and keeps that so. */
  lemma AddSlotInBounds(s: Shape)
    requires s.count <= s.max == s.slots
    ensures AddSlot(s).0 < AddSlot(s).1.slots
    ensures AddSlot(s).1.count <= AddSlot(s).1.max == AddSlot(s).1.slots
  {
  }

  /** Any number of additions to a corrected copy stay inside the allocation. */
  lemma {:induction false} CopyThenAddsInBounds(n: nat, k: nat)
    ensures var s := Adds(CopyShape(n), k); s.count == n + k && s.count <= s.max == s.slots
  {
    if k > 0 {
      CopyThenAddsInBounds(n, k - 1);
      AddSlotInBounds(Adds(CopyShape(n), k - 1));
    }
  }

  /** k calls of image_add_feature. */
  function Adds(s: Shape, k: nat): Shape {
    if k == 0 then s else AddSlot(Adds(s, k - 1)).1
  }

  // ---------------------------------------------------------------------
  // Crystals
  // ---------------------------------------------------------------------

  /** A crystal as the image sees it: an identity and the user flag that marks it for removal. */
  datatype Crystal = Crystal(id: int, userFlag: bool)

  /** The crystals without a user flag, in their order. */
  function Unflagged(cs: seq<Crystal>): seq<Crystal> {
    if cs == [] then []
    else
      var init := Unflagged(cs[..|cs| - 1]);
      var last := cs[|cs| - 1];
      if last.userFlag then init else init + [last]
  }

  function FlaggedCount(cs: seq<Crystal>): nat {
    if cs == [] then 0
    else FlaggedCount(cs[..|cs| - 1]) + (if cs[|cs| - 1].userFlag then 1 else 0)
  }

  /** Exactly the unflagged crystals are kept, and none are counted when none is flagged. */
  lemma {:induction false} UnflaggedFacts(cs: seq<Crystal>)
    ensures forall i :: 0 <= i < |Unflagged(cs)| ==> !Unflagged(cs)[i].userFlag
    ensures forall c :: c in Unflagged(cs) <==> c in cs && !c.userFlag
    ensures FlaggedCount(cs) == 0 <==> forall i :: 0 <= i < |cs| ==> !cs[i].userFlag
  {
    if cs != [] {
      var init := cs[..|cs| - 1];
      UnflaggedFacts(init);
      assert cs == init + [cs[|cs| - 1]];
      assert forall i :: 0 <= i < |init| ==> init[i] == cs[i];
    }
  }

  /** One crystal more in the prefix examined. */
  lemma UnflaggedSnoc(cs: seq<Crystal>, k: nat)
    requires k < |cs|
    ensures Unflagged(cs[..k + 1]) == Unflagged(cs[..k]) + (if cs[k].userFlag then [] else [cs[k]])
    ensures FlaggedCount(cs[..k + 1]) == FlaggedCount(cs[..k]) + (if cs[k].userFlag then 1 else 0)
  {
    assert cs[..k + 1][..k] == cs[..k];
  }

  /** Each crystal is kept or counted as removed. */
  lemma {:induction false} UnflaggedCount(cs: seq<Crystal>)
    ensures |Unflagged(cs)| + FlaggedCount(cs) == |cs|
  {
    if cs != [] {
      UnflaggedCount(cs[..|cs| - 1]);
    }
  }

  /** Removing the flagged crystals twice removes nothing more. */
  lemma UnflaggedIdempotent(cs: seq<Crystal>)
    ensures Unflagged(Unflagged(cs)) == Unflagged(cs)
  {
    UnflaggedFacts(cs);
    UnflaggedNone(Unflagged(cs));
  }

  lemma {:induction false} UnflaggedNone(cs: seq<Crystal>)
    requires forall i :: 0 <= i < |cs| ==> !cs[i].userFlag
    ensures Unflagged(cs) == cs
  {
    if cs != [] {
      UnflaggedNone(cs[..|cs| - 1]);
      assert cs == cs[..|cs| - 1] + [cs[|cs| - 1]];
    }
  }

  /** The crystal array of struct image. */
  class CrystalList {
    var crystals: seq<Crystal>

    constructor ()
      ensures crystals == []
    {
      crystals := [];
    }

    /** image_add_crystal: appended at the end. */
    method AddCrystal(c: Crystal)
      modifies this
      ensures crystals == old(crystals) + [c]
    {
      crystals := crystals + [c];
    }

    /**
     * remove_flagged_crystals: each flagged crystal is taken out and the ones
     * after it move down, the index staying put so the next one is examined;
     * returns how many were removed.
     */
    method RemoveFlagged() returns (nBad: nat)
      modifies this
      ensures crystals == Unflagged(old(crystals))
      ensures nBad == FlaggedCount(old(crystals))
      ensures nBad == |old(crystals)| - |crystals|
    {
      ghost var cs := crystals;
      assert cs[..0] == [];
      var i := 0;
      nBad := 0;
      while i < |crystals|
        invariant 0 <= i <= |crystals| && i + nBad <= |cs|
        invariant crystals[..i] == Unflagged(cs[..i + nBad])
        invariant crystals[i..] == cs[i + nBad..]
        invariant nBad == FlaggedCount(cs[..i + nBad])
        decreases |crystals| - i
      {
        ghost var k := i + nBad;
        ghost var before := crystals;
        assert cs[k] == crystals[i];
        UnflaggedSnoc(cs, k);
        if crystals[i].userFlag {
          crystals := crystals[..i] + crystals[i + 1..];
          assert crystals[..i] == before[..i];
          assert crystals[i..] == before[i + 1..] == cs[k + 1..];
          nBad := nBad + 1;
        } else {
          assert crystals[..i + 1] == crystals[..i] + [crystals[i]];
          i := i + 1;
        }
      }
      assert cs[..i + nBad] == cs;
      UnflaggedCount(cs);
    }
  }

  // ---------------------------------------------------------------------
  // Bad regions
  // ---------------------------------------------------------------------

  /** A comparison with a NaN operand is false: `a < b` where None stands for NaN. */
  predicate Less(a: Option<real>, b: Option<real>) {
    a.Some? && b.Some? && a.value < b.value
  }

  /** A coordinate plus a panel corner that may be NaN. */
  function Plus(x: real, corner: Option<real>): Option<real> {
    if corner.None? then None else Some(x + corner.value)
  }

  /**
   * One bad region of in_bad_region_dtempl, for pixel (fs, ss) of panel p: a
   * region scoped to another panel does not apply; any region whose frame is
   * not x/y (an unassigned one included) tests the original fs/ss, both
   * bounds inclusive; an x/y region tests the lab position, a NaN on either
   * side never excluding the pixel.
   */
  predicate RegionHas(b: BadRegion, p: Panel, fs: real, ss: real) {
    && (b.panel.None? || b.panel.value == p.name)
    && if b.frame != XYFrame then
         var nfs := Trunc(fs + p.origMinFs as real);
         var nss := Trunc(ss + p.origMinSs as real);
         b.minFs <= nfs <= b.maxFs && b.minSs <= nss <= b.maxSs
       else
         var rx := Plus(fs * p.fs.x + ss * p.ss.x, p.cnx);
         var ry := Plus(fs * p.fs.y + ss * p.ss.y, p.cny);
         !Less(rx, b.minX) && !Less(b.maxX, rx) && !Less(ry, b.minY) && !Less(b.maxY, ry)
  }

  /** in_bad_region_dtempl: some region of the template has the pixel. */
  function InBadRegion(bs: seq<BadRegion>, p: Panel, fs: real, ss: real): (r: bool)
    ensures r <==> exists i :: 0 <= i < |bs| && RegionHas(bs[i], p, fs, ss)
  {
    if bs == [] then false
    else
      var rest := InBadRegion(bs[1..], p, fs, ss);
      assert forall i :: 1 <= i < |bs| ==> bs[i] == bs[1..][i - 1];
      RegionHas(bs[0], p, fs, ss) || rest
  }

  /** A region scoped to another panel never marks a pixel of this one. */
  lemma OtherPanelRegion(b: BadRegion, p: Panel, fs: real, ss: real)
    requires b.panel.Some? && b.panel.value != p.name
    ensures !InBadRegion([b], p, fs, ss)
  {
  }

  // ---------------------------------------------------------------------
  // The bad-pixel mask
  // ---------------------------------------------------------------------

  /**
   * The panel width and height create_detgeom and image_read use: the
   * number of raw-file columns and rows from the panel's original minimum
   * to its original maximum, both included.
   */
  function PanelWidth(p: Panel): (w: int)
    ensures w >= 1 <==> p.origMinFs <= p.origMaxFs
  {
    p.origMaxFs - p.origMinFs + 1
  }

  function PanelHeight(p: Panel): (h: int)
    ensures h >= 1 <==> p.origMinSs <= p.origMaxSs
  {
    p.origMaxSs - p.origMinSs + 1
  }

  /**
   * A raw-file pixel lies within the panel's original extents exactly when
   * its offset from the panel origin lies inside the w by h panel, and its
   * place in the panel's buffer is then below w*h.
   */
  lemma PanelExtent(p: Panel, fs: int, ss: int)
    ensures (p.origMinFs <= fs <= p.origMaxFs && p.origMinSs <= ss <= p.origMaxSs)
      <==> (0 <= fs - p.origMinFs < PanelWidth(p) && 0 <= ss - p.origMinSs < PanelHeight(p))
    ensures p.origMinFs <= fs <= p.origMaxFs && p.origMinSs <= ss <= p.origMaxSs ==>
      At(PanelWidth(p), fs - p.origMinFs, ss - p.origMinSs) < PanelWidth(p) * PanelHeight(p)
  {
    if p.origMinFs <= fs <= p.origMaxFs && p.origMinSs <= ss <= p.origMaxSs {
      MaskIndexInside(PanelWidth(p), PanelHeight(p), fs - p.origMinFs, ss - p.origMinSs);
    }
  }

  /**
   * Whether pixel (fs, ss) of panel p is bad in the mask image_read builds
   * before loading mask files: the whole panel is bad when marked so, and
   * otherwise a pixel in a bad region or with a NaN or infinite value (None
   * in `dp`) is.
   */
  predicate PixelBad(bs: seq<BadRegion>, p: Panel, dp: seq<Option<real>>, fs: nat, ss: nat)
    requires PanelWidth(p) >= 0 && At(PanelWidth(p), fs, ss) < |dp|
  {
    p.bad != 0 || InBadRegion(bs, p, fs as real, ss as real) || dp[At(PanelWidth(p), fs, ss)].None?
  }

  /** The place of pixel (fs, ss) in the buffer of a w-wide panel. */
  function At(w: nat, fs: nat, ss: nat): nat {
    fs + ss * w
  }

  /** Pixel (fs, ss) of a w-wide panel lies at fs + ss*w, inside a w*h buffer. */
  lemma MaskIndexInside(w: nat, h: nat, fs: nat, ss: nat)
    requires fs < w && ss < h
    ensures At(w, fs, ss) < w * h
  {
    assert (ss + 1) * w <= h * w;
  }

  /** Different pixels lie at different places. */
  lemma MaskIndexDistinct(w: nat, f1: nat, s1: nat, f2: nat, s2: nat)
    requires f1 < w && f2 < w && (f1 != f2 || s1 != s2)
    ensures At(w, f1, s1) != At(w, f2, s2)
  {
    if s1 < s2 {
      assert (s1 + 1) * w <= s2 * w;
    } else if s2 < s1 {
      assert (s2 + 1) * w <= s1 * w;
    }
  }

  /** Every place of a w*h buffer is some pixel's. */
  lemma MaskIndexCovers(w: nat, h: nat, k: nat)
    requires k < w * h
    ensures k % w < w && k / w < h && k == At(w, k % w, k / w)
  {
    assert w > 0;
    assert (k / w) * w <= k < h * w;
  }

  /**
   * The mask loop of image_read for one panel: w*h flags, all set for a
   * panel marked bad, and otherwise set for the pixels in a bad region or
   * with a value that is not finite.
   */
  method FillBadMask(dt: DataTemplate, i: nat, dp: seq<Option<real>>) returns (mask: seq<bool>)
    requires i < |dt.panels|
    requires PanelWidth(dt.panels[i]) >= 0 && PanelHeight(dt.panels[i]) >= 0
    requires |dp| == PanelWidth(dt.panels[i]) * PanelHeight(dt.panels[i])
    ensures |mask| == |dp|
    ensures forall fs: nat, ss: nat :: fs < PanelWidth(dt.panels[i]) && ss < PanelHeight(dt.panels[i]) ==>
      At(PanelWidth(dt.panels[i]), fs, ss) < |mask| &&
      mask[At(PanelWidth(dt.panels[i]), fs, ss)] == PixelBad(dt.bad, dt.panels[i], dp, fs, ss)
  {
    var p := dt.panels[i];
    var w: nat, h: nat := PanelWidth(p), PanelHeight(p);
    var bad := new bool[w * h](_ => false);
    forall fs: nat, ss: nat | fs < w && ss < h
      ensures At(w, fs, ss) < w * h
    {
      MaskIndexInside(w, h, fs, ss);
    }
    if p.bad != 0 {
      forall k | 0 <= k < w * h {
        bad[k] := true;
      }
    } else {
      for fs := 0 to w
        invariant forall f: nat, s: nat :: f < fs && s < h ==> bad[At(w, f, s)] == PixelBad(dt.bad, p, dp, f, s)
        invariant forall f: nat, s: nat :: fs <= f < w && s < h ==> !bad[At(w, f, s)]
      {
        for ss := 0 to h
          invariant forall f: nat, s: nat :: f < fs && s < h ==> bad[At(w, f, s)] == PixelBad(dt.bad, p, dp, f, s)
          invariant forall s: nat :: s < ss ==> bad[At(w, fs, s)] == PixelBad(dt.bad, p, dp, fs, s)
          invariant forall f: nat, s: nat :: (fs < f < w && s < h) || (f == fs && ss <= s < h) ==> !bad[At(w, f, s)]
        {
          var k := At(w, fs, ss);
          forall f: nat, s: nat | f < w && (f != fs || s != ss)
            ensures At(w, f, s) != k
          {
            MaskIndexDistinct(w, f, s, fs, ss);
          }
          if InBadRegion(dt.bad, p, fs as real, ss as real) || dp[k].None? {
            bad[k] := true;
          }
        }
      }
    }
    mask := bad[..];
  }

  /**
   * image_read as written for a panel marked bad: memset fills w*h BYTES of
   * an int array with 1, so with four-byte ints element k is non-zero
   * exactly when its first byte lies within them.
   */
  function BadPanelMaskAsWritten(n: nat): (m: seq<bool>)
    ensures |m| == n
  {
    seq(n, k requires 0 <= k < n => 4 * k < n)
  }

  /** A 2x2 panel marked bad has pixels left good. */
  lemma BadPanelMaskAsWrittenMisses()
    ensures BadPanelMaskAsWritten(4)[1] == false
  {
  }

  /** As intended, a panel marked bad has every pixel bad. */
  lemma BadPanelAllBad(dt: DataTemplate, i: nat, dp: seq<Option<real>>, fs: nat, ss: nat)
    requires i < |dt.panels| && dt.panels[i].bad != 0
    requires fs < PanelWidth(dt.panels[i]) && ss < PanelHeight(dt.panels[i])
    requires |dp| == PanelWidth(dt.panels[i]) * PanelHeight(dt.panels[i])
    ensures At(PanelWidth(dt.panels[i]), fs, ss) < |dp| && PixelBad(dt.bad, dt.panels[i], dp, fs, ss)
  {
    MaskIndexInside(PanelWidth(dt.panels[i]), PanelHeight(dt.panels[i]), fs, ss);
  }

  // ---------------------------------------------------------------------
  // Length units
  // ---------------------------------------------------------------------

  /** unit_string_to_unit: metres per unit, None (NaN) for anything but "mm" and "m". */
  function UnitFactor(s: string): (r: Option<real>)
    ensures r.Some? <==> s == "mm" || s == "m"
    ensures s == "mm" ==> r == Some(0.001)
    ensures s == "m" ==> r == Some(1.0)
  {
    if s == "mm" then Some(0.001) else if s == "m" then Some(1.0) else None
  }

  /** A product in which a NaN factor gives NaN. */
  function Times(a: Option<real>, b: Option<real>): Option<real> {
    if a.None? || b.None? then None else Some(a.value * b.value)
  }

  /**
   * get_length as intended: no reference gives NaN; the text before the
   * first space names the value, which `value` stands for reading, and the
   * text after it is the unit; without a space the whole text names the
   * value, in millimetres.
   */
  function GetLength(from: Option<string>, value: string -> Option<real>): (r: Option<real>)
    ensures from.None? ==> r.None?
    ensures from.Some? && ' ' !in from.value ==> r == Times(value(from.value), Some(0.001))
    ensures from.Some? && ' ' in from.value ==>
      var k := IndexOf(from.value, ' ').value;
      r == Times(value(from.value[..k]), UnitFactor(from.value[k + 1..]))
  {
    if from.None? then None
    else
      var s := from.value;
      match IndexOf(s, ' ')
      case None => Times(value(s), Some(0.001))
      case Some(k) => Times(value(s[..k]), UnitFactor(s[k + 1..]))
  }

  /** What get_length as written does: the NULL dereference of a reference without a space is `Crash`. */
  datatype LengthOutcome = Crash | Length(value: Option<real>)

  function GetLengthAsWritten(from: Option<string>, value: string -> Option<real>): LengthOutcome {
    if from.None? then Length(None)
    else
      var s := from.value;
      match IndexOf(s, ' ')
      case None => Crash
      case Some(k) => Length(Times(value(s[..k]), UnitFactor(s[k + 1..])))
  }

  /** A reference without a unit, such as "clen", reaches the NULL dereference. */
  lemma GetLengthAsWrittenCrashes(value: string -> Option<real>)
    ensures GetLengthAsWritten(Some("clen"), value) == Crash
  {
  }

  /** As intended, a reference with a space gives what the code as written gives, and one without reads millimetres. */
  lemma GetLengthAgrees(from: Option<string>, value: string -> Option<real>)
    ensures GetLengthAsWritten(from, value) == Crash <==> from.Some? && ' ' !in from.value
    ensures GetLengthAsWritten(from, value) != Crash ==> GetLengthAsWritten(from, value) == Length(GetLength(from, value))
  {
  }
}
