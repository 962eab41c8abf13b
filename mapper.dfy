/**
 * The coordinate mapper of the data template: which panel a raw-file pixel
 * lies on, the conversion between file and panel coordinates in both
 * directions, and panel names and numbers. Coordinates the C code keeps as
 * float are `real` here, and the float-to-int conversion of the panel search
 * truncates toward zero.
 */
module Mapper {
  import opened Wrappers
  import opened Text
  import opened Geometry

  /** The raw-file pixel (fs, ss) lies inside the panel's original extent. */
  predicate Covers(p: Panel, fs: int, ss: int) {
    p.origMinFs <= fs < p.origMaxFs + 1 && p.origMinSs <= ss < p.origMaxSs + 1
  }

  /** data_template_find_panel: the first panel covering the pixel, None when none does. */
  function FindPanel(ps: seq<Panel>, fs: int, ss: int): (r: Option<nat>)
    ensures r.None? <==> forall p :: 0 <= p < |ps| ==> !Covers(ps[p], fs, ss)
    ensures r.Some? ==> r.value < |ps| && Covers(ps[r.value], fs, ss)
    ensures r.Some? ==> forall q :: 0 <= q < r.value ==> !Covers(ps[q], fs, ss)
  {
    if ps == [] then None
    else if Covers(ps[0], fs, ss) then Some(0)
    else
      match FindPanel(ps[1..], fs, ss)
      case None => None
      case Some(i) => Some(i + 1)
  }

  /** The loop of data_template_find_panel. */
  method FindPanelLoop(dt: DataTemplate, fs: int, ss: int) returns (r: Option<nat>)
    ensures r == FindPanel(dt.panels, fs, ss)
  {
    var p := 0;
    while p < |dt.panels|
      invariant 0 <= p <= |dt.panels|
      invariant forall q :: 0 <= q < p ==> !Covers(dt.panels[q], fs, ss)
    {
      if Covers(dt.panels[p], fs, ss) {
        FirstCover(dt.panels, fs, ss, p);
        return Some(p);
      }
      p := p + 1;
    }
    return None;
  }

  /** A covering panel with no covering panel before it is the one FindPanel finds. */
  lemma FirstCover(ps: seq<Panel>, fs: int, ss: int, p: nat)
    requires p < |ps| && Covers(ps[p], fs, ss)
    requires forall q :: 0 <= q < p ==> !Covers(ps[q], fs, ss)
    ensures FindPanel(ps, fs, ss) == Some(p)
  {
  }

  /** A pixel position relative to a panel. */
  datatype PanelCoords = PanelCoords(pn: nat, fs: real, ss: real)

  /** data_template_file_to_panel_coords: the panel origin subtracted; None (return value 1) when no panel covers the pixel. */
  function FileToPanel(dt: DataTemplate, fs: real, ss: real): (r: Option<PanelCoords>)
    ensures r.None? <==> FindPanel(dt.panels, Trunc(fs), Trunc(ss)).None?
    ensures r.Some? ==> r.value.pn < |dt.panels| && Covers(dt.panels[r.value.pn], Trunc(fs), Trunc(ss))
    ensures r.Some? ==> forall q :: 0 <= q < r.value.pn ==> !Covers(dt.panels[q], Trunc(fs), Trunc(ss))
    ensures r.Some? ==> FindPanel(dt.panels, Trunc(fs), Trunc(ss)) == Some(r.value.pn)
    ensures r.Some? ==> r.value.fs + dt.panels[r.value.pn].origMinFs as real == fs
    ensures r.Some? ==> r.value.ss + dt.panels[r.value.pn].origMinSs as real == ss
  {
    match FindPanel(dt.panels, Trunc(fs), Trunc(ss))
    case None => None
    case Some(pn) =>
      var p := dt.panels[pn];
      Some(PanelCoords(pn, fs - p.origMinFs as real, ss - p.origMinSs as real))
  }

  /** data_template_panel_to_file_coords: the panel origin added; None (return value 1) when pn is not a panel. */
  function PanelToFile(dt: DataTemplate, pn: nat, fs: real, ss: real): (r: Option<(real, real)>)
    ensures r.None? <==> pn >= |dt.panels|
    ensures r.Some? ==> r.value.0 - dt.panels[pn].origMinFs as real == fs
    ensures r.Some? ==> r.value.1 - dt.panels[pn].origMinSs as real == ss
  {
    if pn >= |dt.panels| then None
    else Some((fs + dt.panels[pn].origMinFs as real, ss + dt.panels[pn].origMinSs as real))
  }

  /** File to panel and back gives the file coordinates again. */
  lemma FileToPanelToFile(dt: DataTemplate, fs: real, ss: real)
    requires FileToPanel(dt, fs, ss).Some?
    ensures var c := FileToPanel(dt, fs, ss).value; PanelToFile(dt, c.pn, c.fs, c.ss) == Some((fs, ss))
  {
  }

  /** No two panels share a raw-file pixel. */
  predicate Disjoint(ps: seq<Panel>) {
    forall i, j :: 0 <= i < j < |ps| ==>
      || ps[i].origMaxFs < ps[j].origMinFs || ps[j].origMaxFs < ps[i].origMinFs
      || ps[i].origMaxSs < ps[j].origMinSs || ps[j].origMaxSs < ps[i].origMinSs
  }

  /** Truncation of a non-negative value shifted by an integer. */
  lemma TruncShift(x: real, m: int)
    requires x >= 0.0 && m >= 0
    ensures Trunc(x + m as real) == Trunc(x) + m
  {
    assert (x + m as real).Floor == x.Floor + m;
  }

  /**
   * Panel to file and back gives the panel coordinates again, for a point
   * inside a panel whose origin is not negative when the panels do not
   * overlap.
   */
  lemma PanelToFileToPanel(dt: DataTemplate, pn: nat, fs: real, ss: real)
    requires pn < |dt.panels| && Disjoint(dt.panels)
    requires dt.panels[pn].origMinFs >= 0 && dt.panels[pn].origMinSs >= 0
    requires 0.0 <= fs && Trunc(fs) <= dt.panels[pn].origMaxFs - dt.panels[pn].origMinFs
    requires 0.0 <= ss && Trunc(ss) <= dt.panels[pn].origMaxSs - dt.panels[pn].origMinSs
    ensures var f := PanelToFile(dt, pn, fs, ss).value; FileToPanel(dt, f.0, f.1) == Some(PanelCoords(pn, fs, ss))
  {
    var p := dt.panels[pn];
    var f := PanelToFile(dt, pn, fs, ss).value;
    TruncShift(fs, p.origMinFs);
    TruncShift(ss, p.origMinSs);
    assert Covers(p, Trunc(f.0), Trunc(f.1));
    forall q | 0 <= q < pn
      ensures !Covers(dt.panels[q], Trunc(f.0), Trunc(f.1))
    {
    }
    FirstCover(dt.panels, Trunc(f.0), Trunc(f.1), pn);
  }

  /** data_template_panel_name: None (NULL) when pn is not a panel. */
  function PanelName(dt: DataTemplate, pn: nat): (r: Option<string>)
    ensures r.None? <==> pn >= |dt.panels|
    ensures r.Some? ==> r.value == dt.panels[pn].name
  {
    if pn >= |dt.panels| then None else Some(dt.panels[pn].name)
  }

  /** data_template_panel_name_to_number: the first panel with that name; a NULL name or an unknown one fails. */
  function PanelNumber(dt: DataTemplate, name: Option<string>): (r: Option<nat>)
    ensures r.None? <==> name.None? || name.value !in PanelNames(dt.panels)
    ensures r.Some? ==> r.value < |dt.panels| && dt.panels[r.value].name == name.value
    ensures r.Some? ==> forall q :: 0 <= q < r.value ==> dt.panels[q].name != name.value
  {
    if name.None? then None
    else
      var r := IndexOf(PanelNames(dt.panels), name.value);
      assert r.Some? ==> forall q :: 0 <= q < r.value ==> PanelNames(dt.panels)[..r.value][q] == dt.panels[q].name;
      r
  }

  /** The linear search of data_template_panel_name_to_number. */
  method PanelNumberLoop(dt: DataTemplate, name: Option<string>) returns (r: Option<nat>)
    ensures r == PanelNumber(dt, name)
  {
    if name.None? {
      return None;
    }
    var i := 0;
    while i < |dt.panels|
      invariant 0 <= i <= |dt.panels|
      invariant name.value !in PanelNames(dt.panels)[..i]
    {
      if dt.panels[i].name == name.value {
        IndexOfFirst(PanelNames(dt.panels), name.value, i);
        return Some(i);
      }
      assert PanelNames(dt.panels)[..i + 1] == PanelNames(dt.panels)[..i] + [dt.panels[i].name];
      i := i + 1;
    }
    assert PanelNames(dt.panels)[..i] == PanelNames(dt.panels);
    return None;
  }

  /** With unique panel names, a panel's name leads back to its number. */
  lemma NameNumberRoundTrip(dt: DataTemplate, pn: nat)
    requires pn < |dt.panels| && Distinct(PanelNames(dt.panels))
    ensures PanelNumber(dt, PanelName(dt, pn)) == Some(pn)
  {
  }

  /** A number found for a name has that name. */
  lemma NumberNameRoundTrip(dt: DataTemplate, name: string)
    requires PanelNumber(dt, Some(name)).Some?
    ensures PanelName(dt, PanelNumber(dt, Some(name)).value) == Some(name)
  {
  }
}
