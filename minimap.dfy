/** The timeline minimap: it shows at most 16 region rows, a window of the
    region list placed so that the selected region is near its top, and keeps
    its own copy of the selected region, synchronised from the list whenever
    the list changes. */
module Minimap {
  import opened Common
  import opened Regions

  /** `minimapEntries`: the number of rows shown. */
  const MinimapEntries: nat := 16

  function Max(a: int, b: int): int {
    if a >= b then a else b
  }

  function Min(a: int, b: int): int {
    if a <= b then a else b
  }

  /** With fewer than 16 rows from one above the selection to the end, the
      window is pulled back to the last 16 rows, or to the top of a shorter list. */
  lemma {:induction false} WindowPulledBack(length: nat, index: nat)
    requires length - Max(index - 1, 0) < MinimapEntries
    ensures WindowTop(length, index) == Max(length - MinimapEntries, 0)
  {
  }

  // ---------------------------------------------------------------------------
  // The window

  /** The `selectedRegionIndex` memo: the selected region's position in the
      list, or 0 when there is no selected region or the list lacks its id. */
  function SelectedRegionIndex(regions: seq<Region>, selected: Option<Region>): (index: nat)
    ensures selected.None? ==> index == 0
    ensures selected.Some? && FindIndexById(regions, selected.value.id) == -1 ==> index == 0
    ensures selected.Some? && FindIndexById(regions, selected.value.id) != -1 ==>
      index < |regions| && regions[index].id == selected.value.id
      && forall j :: 0 <= j < index ==> regions[j].id != selected.value.id
  {
    if selected.None? then 0 else Max(FindIndexById(regions, selected.value.id), 0)
  }

  /** The first row shown: one above the selected index, pulled back so that a
      full window fits when fewer than 16 rows would follow. */
  function WindowTop(length: nat, index: nat): (top: nat)
    ensures top <= length
  {
    var top := Max(index - 1, 0);
    var n := length - top;
    if n < MinimapEntries then Max(length - MinimapEntries, 0) else top
  }

  /** One row of the minimap: the region's id and colour, and the keyframes its
      lifespans are drawn from. */
  datatype Entry = Entry(id: string, color: string, sequence: seq<Keyframe>)

  /** `visualization`: `regions.slice(top, top + 16)`, each mapped to its row. */
  function Visualization(regions: seq<Region>, index: nat): seq<Entry>
  {
    var top := WindowTop(|regions|, index);
    var end := Min(top + MinimapEntries, |regions|);
    seq(end - top, k requires 0 <= k < end - top =>
      Entry(regions[top + k].id, regions[top + k].color, regions[top + k].sequence))
  }

  /** The window holds `min(16, length)` rows, lies inside the list, is the
      contiguous run of regions from `top` on in list order, and contains the
      given index whenever that index is a position of the list. */
  lemma {:induction false} WindowBounds(regions: seq<Region>, index: nat)
    ensures var top := WindowTop(|regions|, index);
      var rows := Visualization(regions, index);
      |rows| == Min(MinimapEntries, |regions|)
      && top + |rows| <= |regions|
      && (forall k :: 0 <= k < |rows| ==>
            rows[k].id == regions[top + k].id && rows[k].color == regions[top + k].color)
      && (index < |regions| ==> top <= index < top + |rows|)
  {
  }

  /** With the selection near the top of a long list, the window starts one
      row above it. */
  lemma {:induction false} WindowStartsAboveSelection(length: nat, index: nat)
    requires 1 <= index && index + MinimapEntries <= length + 1
    ensures WindowTop(length, index) == index - 1
  {
  }

  // ---------------------------------------------------------------------------
  // Connections

  /** A lifespan connection as the minimap draws it; `width` is the width
      `visualizeLifespans` computed. */
  datatype Connection = Connection(start: int, width: int, enabled: bool)

  datatype Width = Full | Computed(value: int)

  /** The width each connection is drawn with. */
  function ConnectionWidths(lifespans: seq<Connection>): (widths: seq<Width>)
    ensures |widths| == |lifespans|
    ensures forall i :: 0 <= i < |widths| ==> (widths[i] == Full <==> i + 1 == |lifespans| && lifespans[i].enabled)
    ensures forall i :: 0 <= i < |widths| && widths[i] != Full ==> widths[i] == Computed(lifespans[i].width)
  {
    seq(|lifespans|, i requires 0 <= i < |lifespans| =>
      if i + 1 == |lifespans| && lifespans[i].enabled then Full else Computed(lifespans[i].width))
  }

  /** At most one connection, the last, is drawn full width. */
  lemma {:induction false} AtMostOneFull(lifespans: seq<Connection>)
    ensures forall i, j :: 0 <= i < j < |lifespans| ==> !(ConnectionWidths(lifespans)[i] == Full && ConnectionWidths(lifespans)[j] == Full)
  {
  }

  // ---------------------------------------------------------------------------
  // The selection-sync effect

  /** `regions.findIndex(r => r.selected)` */
  function FindSelected(regions: seq<Region>): (i: int)
    ensures -1 <= i < |regions|
    ensures i >= 0 ==> regions[i].selected
    ensures forall j :: 0 <= j < |regions| && (i == -1 || j < i) ==> !regions[j].selected
  {
    if |regions| == 0 then -1
    else if regions[0].selected then 0
    else
      var k := FindSelected(regions[1..]);
      if k == -1 then -1 else k + 1
  }

  /** The selected region after the sync effect: none when no region of the
      list is selected, else the first selected one unless the current one has
      the same id, in which case the current one stays. */
  function Synced(regions: seq<Region>, current: Option<Region>): Option<Region>
  {
    var index := FindSelected(regions);
    if index == -1 then None
    else if current.None? || regions[index].id != current.value.id then Some(regions[index])
    else current
  }

  /** The sync effect keeps the selection's id equal to that of the first
      selected region of the list, and changes the selection only when that id
      changes. */
  lemma {:induction false} SyncedTracksFirstSelected(regions: seq<Region>, current: Option<Region>)
    ensures var s := Synced(regions, current);
      (s.None? <==> forall j :: 0 <= j < |regions| ==> !regions[j].selected)
      && (s.Some? ==> exists j :: 0 <= j < |regions| && regions[j].selected && regions[j].id == s.value.id
                         && forall i :: 0 <= i < j ==> !regions[i].selected)
      && (s.Some? && current.Some? && s.value.id == current.value.id ==> s == current)
  {
    var index := FindSelected(regions);
    if index != -1 {
      assert regions[index].selected;
    }
  }

  /** The minimap's state: the list it is given and its own React state. */
  class MinimapView {
    var regions: seq<Region>
    /** The `selectedRegion` state. */
    var selectedRegion: Option<Region>
    /** The `selectedRegionIndex` memo, recomputed only when `selectedRegion` changes. */
    var selectedRegionIndex: nat

    /** Mounting: empty state, then the sync effect runs once. */
    constructor(regions: seq<Region>)
      ensures this.regions == regions
      ensures selectedRegion == Synced(regions, None)
      ensures selectedRegionIndex == SelectedRegionIndex(regions, selectedRegion)
    {
      this.regions := regions;
      selectedRegion := None;
      selectedRegionIndex := 0;
      new;
      SyncSelection();
    }

    /** The sync effect (`useEffect(..., [regions])`); a change of
        `selectedRegion` re-renders and recomputes the memo. */
    method SyncSelection()
      modifies this
      ensures regions == old(regions)
      ensures selectedRegion == Synced(regions, old(selectedRegion))
      ensures selectedRegionIndex == if selectedRegion == old(selectedRegion) then old(selectedRegionIndex)
                                     else SelectedRegionIndex(regions, selectedRegion)
    {
      var index := FindSelected(regions);
      if index == -1 {
        if selectedRegion.Some? {
          SetSelectedRegion(None);
        }
        return;
      }
      var region := regions[index];
      if selectedRegion.None? || region.id != selectedRegion.value.id {
        SetSelectedRegion(Some(region));
      }
    }

    /** `setSelectedRegion`: a new value re-renders, and the memo depending on
        it is recomputed. */
    method SetSelectedRegion(region: Option<Region>)
      modifies this
      ensures regions == old(regions) && selectedRegion == region
      ensures selectedRegionIndex == if region == old(selectedRegion) then old(selectedRegionIndex)
                                     else SelectedRegionIndex(regions, region)
    {
      if region != selectedRegion {
        selectedRegion := region;
        selectedRegionIndex := SelectedRegionIndex(regions, region);
      }
    }

    /** A new region list from the timeline: the memo keeps its value (its
        only dependency is `selectedRegion`), then the sync effect runs. */
    method RegionsChanged(newRegions: seq<Region>)
      modifies this
      ensures regions == newRegions
      ensures selectedRegion == Synced(newRegions, old(selectedRegion))
      ensures selectedRegionIndex == if selectedRegion == old(selectedRegion) then old(selectedRegionIndex)
                                     else SelectedRegionIndex(newRegions, selectedRegion)
    {
      regions := newRegions;
      SyncSelection();
    }

    /** `RegionsChanged` with the memo also depending on `regions`, as the
        window's purpose requires: the index always follows the list. */
    method RegionsChangedTracked(newRegions: seq<Region>)
      modifies this
      ensures regions == newRegions
      ensures selectedRegion == Synced(newRegions, old(selectedRegion))
      ensures selectedRegionIndex == SelectedRegionIndex(newRegions, selectedRegion)
    {
      regions := newRegions;
      SyncSelection();
      selectedRegionIndex := SelectedRegionIndex(regions, selectedRegion);
    }

    /** The rows on screen. */
    function Rows(): seq<Entry>
      reads this
    {
      Visualization(regions, selectedRegionIndex)
    }
  }

  /** With the index recomputed from the list, the selected region is always
      on screen. */
  lemma {:induction false} TrackedWindowShowsSelection(regions: seq<Region>, current: Option<Region>)
    requires Synced(regions, current).Some?
    ensures var s := Synced(regions, current);
      var index := SelectedRegionIndex(regions, s);
      var top := WindowTop(|regions|, index);
      exists k :: 0 <= k < |Visualization(regions, index)| && Visualization(regions, index)[k].id == s.value.id
  {
    var s := Synced(regions, current);
    SyncedTracksFirstSelected(regions, current);
    var j :| 0 <= j < |regions| && regions[j].selected && regions[j].id == s.value.id;
    assert FindIndexById(regions, s.value.id) != -1;
    var index := SelectedRegionIndex(regions, s);
    WindowBounds(regions, index);
    assert Visualization(regions, index)[index - WindowTop(|regions|, index)].id == s.value.id;
  }

  /** As written, the memo goes stale when regions are inserted above a
      selection whose id stays the same: the selected first region of a
      17-region list has index 0; after 16 regions are inserted above it, the
      sync effect keeps the selection, the index stays 0, and the window (the
      first 16 rows) no longer shows the selected region, now at position 16. */
  lemma {:induction false} StaleIndexHidesSelection(above: seq<Region>, selected: Region, below: seq<Region>)
    requires |above| == 16 && |below| == 16 && selected.selected
    requires forall r | r in above + below :: !r.selected && r.id != selected.id
    ensures var before := [selected] + below;
      var after := above + [selected] + below;
      var s := Synced(before, None);
      var index := SelectedRegionIndex(before, s);
      s == Some(selected) && index == 0
      && Synced(after, s) == s
      && forall k :: 0 <= k < |Visualization(after, index)| ==> Visualization(after, index)[k].id != selected.id
  {
    var before := [selected] + below;
    var after := above + [selected] + below;
    assert FindSelected(before) == 0;
    assert after[16] == selected;
    assert FindSelected(after) == 16 by {
      forall j | 0 <= j < 16 ensures !after[j].selected {
        assert after[j] in above + below;
      }
    }
    forall k | 0 <= k < |Visualization(after, 0)| ensures Visualization(after, 0)[k].id != selected.id {
      assert after[k] in above + below;
    }
  }
}
