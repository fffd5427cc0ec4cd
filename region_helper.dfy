/** The helper userscript that drives the video timeline from the keyboard:
    stepping to the next or previous region (optionally wrapping), grouping
    regions of one tracked object by their id, counting labels, finding
    unlabelled regions, and selecting many regions one at a time with a
    cancel flag. The page it runs on is the `HelperScript` object: the page's
    region list, the cancel flag, and the log of what the script did to the
    page (region clicks, playhead moves, row highlights, notices). */
module RegionHelper {
  import opened Common
  import opened Regions

  // ---------------------------------------------------------------------------
  // Selection state and next/previous

  /** `isSelectedRegion` */
  predicate IsSelectedRegion(r: Region) {
    r.selected || r.inSelection
  }

  /** `getSelectedRegion`: the first region of the page list that is selected. */
  function GetSelectedRegion(regions: seq<Region>): (r: Option<Region>)
    ensures r.None? <==> forall i :: 0 <= i < |regions| ==> !IsSelectedRegion(regions[i])
    ensures r.Some? ==> r.value in regions && IsSelectedRegion(r.value)
    ensures r.Some? ==>
      exists k :: 0 <= k < |regions| && regions[k] == r.value && forall j :: 0 <= j < k ==> !IsSelectedRegion(regions[j])
  {
    if |regions| == 0 then None
    else if IsSelectedRegion(regions[0]) then Some(regions[0])
    else GetSelectedRegion(regions[1..])
  }

  /** `getNextRegion`: the region after the one whose id is `current`'s id;
      after the last one, the first one when `cyclicSelect`, else nothing.
      A missing `current`, or one whose id is not in the list, gives nothing. */
  function GetNextRegion(current: Option<Region>, regions: seq<Region>, cyclicSelect: bool): (next: Option<Region>)
    ensures next.Some? ==> next.value in regions
    ensures next.Some? ==> current.Some? && FindIndexById(regions, current.value.id) != -1
  {
    if current.None? then None
    else
      var i := FindIndexById(regions, current.value.id);
      if i == -1 then None
      else if i + 1 < |regions| then Some(regions[i + 1])
      else if cyclicSelect then Some(regions[0])
      else None
  }

  /** Stepping from the k-th region of a list with unique ids. */
  lemma {:induction false} NextOfIndex(regions: seq<Region>, k: nat, cyclicSelect: bool)
    requires UniqueIds(regions) && k < |regions|
    ensures GetNextRegion(Some(regions[k]), regions, cyclicSelect)
         == if k + 1 < |regions| then Some(regions[k + 1])
            else if cyclicSelect then Some(regions[0])
            else None
  {
    FindIndexOfUnique(regions, k);
  }

  /** `n` steps of `getNextRegion`. */
  function Advance(current: Option<Region>, regions: seq<Region>, cyclicSelect: bool, n: nat): Option<Region>
    decreases n
  {
    if n == 0 then current else Advance(GetNextRegion(current, regions, cyclicSelect), regions, cyclicSelect, n - 1)
  }

  lemma {:induction false} AdvanceAdd(current: Option<Region>, regions: seq<Region>, cyclicSelect: bool, a: nat, b: nat)
    ensures Advance(current, regions, cyclicSelect, a + b)
         == Advance(Advance(current, regions, cyclicSelect, a), regions, cyclicSelect, b)
    decreases a
  {
    if a > 0 {
      AdvanceAdd(GetNextRegion(current, regions, cyclicSelect), regions, cyclicSelect, a - 1, b);
    }
  }

  /** m steps from the k-th region land m places further on, while that stays in the list. */
  lemma {:induction false} AdvanceForward(regions: seq<Region>, k: nat, m: nat, cyclicSelect: bool)
    requires UniqueIds(regions) && k + m < |regions|
    ensures Advance(Some(regions[k]), regions, cyclicSelect, m) == Some(regions[k + m])
    decreases m
  {
    if m > 0 {
      NextOfIndex(regions, k, cyclicSelect);
      AdvanceForward(regions, k + 1, m - 1, cyclicSelect);
    }
  }

  /** With unique ids and wrap-around, `|regions|` steps return to the start:
      forward to the last region, round to the first, forward again. */
  lemma {:induction false} CycleReturnsToStart(regions: seq<Region>, k: nat)
    requires UniqueIds(regions) && k < |regions|
    ensures Advance(Some(regions[k]), regions, true, |regions|) == Some(regions[k])
  {
    var n := |regions|;
    var toLast: nat := n - 1 - k;
    var last := Some(regions[n - 1]);
    AdvanceForward(regions, k, toLast, true);
    AdvanceAdd(Some(regions[k]), regions, true, toLast, 1 + k);
    assert Advance(Some(regions[k]), regions, true, n) == Advance(last, regions, true, 1 + k);
    AdvanceAdd(last, regions, true, 1, k);
    NextOfIndex(regions, n - 1, true);
    assert Advance(last, regions, true, 1) == Advance(Some(regions[0]), regions, true, 0);
    AdvanceForward(regions, 0, k, true);
  }

  lemma {:induction false} ReverseUniqueIds(regions: seq<Region>)
    requires UniqueIds(regions)
    ensures UniqueIds(Reverse(regions))
  {
    var r := Reverse(regions);
    forall i, j | 0 <= i < j < |r| ensures r[i].id != r[j].id {
      assert r[i] == regions[|regions| - 1 - i] && r[j] == regions[|regions| - 1 - j];
    }
  }

  /** A step over the reversed list (what "previous" does) undoes a step over
      the list, with or without wrap-around. */
  lemma {:induction false} PreviousUndoesNext(regions: seq<Region>, k: nat, cyclicSelect: bool)
    requires UniqueIds(regions) && k < |regions|
    requires GetNextRegion(Some(regions[k]), regions, cyclicSelect).Some?
    ensures GetNextRegion(GetNextRegion(Some(regions[k]), regions, cyclicSelect), Reverse(regions), cyclicSelect)
         == Some(regions[k])
  {
    var n := |regions|;
    var rev := Reverse(regions);
    NextOfIndex(regions, k, cyclicSelect);
    ReverseUniqueIds(regions);
    if k + 1 < n {
      assert rev[n - 2 - k] == regions[k + 1];
      NextOfIndex(rev, n - 2 - k, cyclicSelect);
      assert rev[n - 1 - k] == regions[k];
    } else {
      assert rev[n - 1] == regions[0];
      NextOfIndex(rev, n - 1, cyclicSelect);
      assert rev[0] == regions[k];
    }
  }

  /** The region `selectNextRegion` moves to: it steps from the page's selected
      region, or from the first region of the list when nothing is selected. */
  function NextTarget(page: seq<Region>, regions: seq<Region>, cyclicSelect: bool): Option<Region>
  {
    var current := match GetSelectedRegion(page)
      case Some(r) => Some(r)
      case None => if |regions| > 0 then Some(regions[0]) else None;
    GetNextRegion(current, regions, cyclicSelect)
  }

  /** With nothing selected, "next" moves from the first region to the second,
      and "previous" (next over the reversed list) from the last to the one
      before it; a one-region list only wraps onto itself. */
  lemma {:induction false} NothingSelectedStartsAtEnds(page: seq<Region>, regions: seq<Region>, cyclicSelect: bool)
    requires forall i :: 0 <= i < |page| ==> !IsSelectedRegion(page[i])
    requires UniqueIds(regions) && |regions| > 0
    ensures NextTarget(page, regions, cyclicSelect)
         == if |regions| > 1 then Some(regions[1]) else if cyclicSelect then Some(regions[0]) else None
    ensures NextTarget(page, Reverse(regions), cyclicSelect)
         == if |regions| > 1 then Some(regions[|regions| - 2])
            else if cyclicSelect then Some(regions[0]) else None
  {
    NextOfIndex(regions, 0, cyclicSelect);
    ReverseUniqueIds(regions);
    NextOfIndex(Reverse(regions), 0, cyclicSelect);
  }

  // ---------------------------------------------------------------------------
  // Tracking groups

  /** `getTrackingID`'s result: no tracking (`{null, null}`), or a prefix and a
      part number, where `None` is the `NaN` that `parseInt` gives for a part
      that does not start with digits. */
  datatype TrackingId = NoTracking | Tracking(prefix: string, part: Option<int>)

  /** `getTrackingID`: an id `a-b-c#...` gives prefix `a-b-` and part
      `parseInt` of `c` up to the first `#`; any other shape gives no tracking. */
  function GetTrackingId(region: Option<Region>): (t: TrackingId)
    ensures t.Tracking? ==> region.Some? && StartsWith(region.value.id, t.prefix)
    ensures t.Tracking? <==> region.Some? && region.value.id != "" && |Split(region.value.id, '-')| == 3
  {
    if region.None? || region.value.id == "" then NoTracking
    else
      var a := Split(region.value.id, '-');
      if |a| != 3 then NoTracking
      else
        assert a[1..][0] == a[1] && a[1..][1..] == [a[2]];
        assert Join(a[1..], "-") == a[1] + "-" + a[2];
        assert Join(a, "-") == a[0] + "-" + Join(a[1..], "-");
        assert Join(a, "-") == (a[0] + "-" + a[1] + "-") + a[2];
        Tracking(a[0] + "-" + a[1] + "-", ParseInt(Split(a[2], '#')[0]))
  }

  lemma {:induction false} SplitThree(a: string, b: string, c: string)
    requires '-' !in a && '-' !in b && '-' !in c
    ensures Split(a + "-" + b + "-" + c, '-') == [a, b, c]
  {
    assert [a, b, c][1..] == [b, c] && [b, c][1..] == [c];
    assert Join([b, c], "-") == b + "-" + c;
    assert Join([a, b, c], "-") == a + "-" + Join([b, c], "-");
    assert Join([a, b, c], "-") == a + "-" + b + "-" + c;
    SplitJoin([a, b, c], '-');
  }

  /** The part before the first `#` of `digits + rest`, when `rest` is empty or
      starts with `#`. */
  lemma {:induction false} SplitBeforeHash(digits: string, rest: string)
    requires '#' !in digits
    requires rest == "" || rest[0] == '#'
    ensures Split(digits + rest, '#')[0] == digits
  {
    if rest == "" {
      SplitWithoutSeparator(digits, "", '#');
      assert digits + rest == digits + "";
    } else {
      SplitWithoutSeparator(digits, rest, '#');
      assert rest == [rest[0]] + rest[1..];
    }
  }

  /** An id written as `a-b-<n><rest>`, with no dash in `a`, `b` or `rest` and
      `rest` empty or starting with `#`, has prefix `a-b-` and part `n`. */
  lemma {:induction false} TrackingIdOfWellFormedId(region: Region, a: string, b: string, n: nat, rest: string)
    requires '-' !in a && '-' !in b && '-' !in rest
    requires rest == "" || rest[0] == '#'
    requires region.id == a + "-" + b + "-" + NatToString(n) + rest
    ensures GetTrackingId(Some(region)) == Tracking(a + "-" + b + "-", Some(n))
  {
    var digits := NatToString(n);
    var c := digits + rest;
    assert '-' !in digits && '#' !in digits;
    assert region.id == a + "-" + b + "-" + c;
    SplitThree(a, b, c);
    SplitBeforeHash(digits, rest);
    ParseIntNatToString(n);
  }

  /** The test `getSameTrackingRegions` applies to each region when
      `ignoreBeforeRegion` is set: same prefix and a part at or after the
      reference part (a `NaN` on either side fails the comparison). */
  predicate AtOrAfter(r: Region, prefix: string, part: Option<int>) {
    var t := GetTrackingId(Some(r));
    t.Tracking? && t.prefix == prefix && part.Some? && t.part.Some? && part.value <= t.part.value
  }

  /** The filter `getSameTrackingRegions` applies. */
  function SameTrackingFilter(prefix: string, part: Option<int>, ignoreBeforeRegion: bool): Region -> bool
  {
    if ignoreBeforeRegion then (r: Region) => AtOrAfter(r, prefix, part)
    else (r: Region) => StartsWith(r.id, prefix)
  }

  /** `getSameTrackingRegions`: the page's regions of the reference region's
      tracking group, in page order; nothing when the reference id is malformed. */
  function GetSameTrackingRegions(page: seq<Region>, region: Option<Region>, ignoreBeforeRegion: bool): (r: seq<Region>)
    ensures GetTrackingId(region).NoTracking? ==> r == []
    ensures IsSubsequence(r, page)
  {
    match GetTrackingId(region)
    case NoTracking => []
    case Tracking(prefix, part) =>
      var f := SameTrackingFilter(prefix, part, ignoreBeforeRegion);
      FilterIsSubsequence(page, f);
      Filter(page, f)
  }

  /** Selecting "from this part on" picks a subsequence of the whole group. */
  lemma {:induction false} SameTrackingAfterIsSubsequence(page: seq<Region>, region: Option<Region>)
    ensures IsSubsequence(GetSameTrackingRegions(page, region, true), GetSameTrackingRegions(page, region, false))
  {
    match GetTrackingId(region)
    case NoTracking =>
    case Tracking(prefix, part) =>
      var p := SameTrackingFilter(prefix, part, true);
      var q := SameTrackingFilter(prefix, part, false);
      forall i | 0 <= i < |page| ensures p(page[i]) ==> q(page[i]) {
        if p(page[i]) {
          assert StartsWith(page[i].id, GetTrackingId(Some(page[i])).prefix);
        }
      }
      FilterStricter(page, p, q);
  }

  /** Exactly which regions "from this part on" keeps. */
  lemma {:induction false} SameTrackingAfterMembers(page: seq<Region>, region: Region, r: Region)
    requires GetTrackingId(Some(region)).Tracking?
    ensures r in GetSameTrackingRegions(page, Some(region), true)
        <==> r in page
             && GetTrackingId(Some(r)).Tracking?
             && GetTrackingId(Some(r)).prefix == GetTrackingId(Some(region)).prefix
             && GetTrackingId(Some(region)).part.Some? && GetTrackingId(Some(r)).part.Some?
             && GetTrackingId(Some(region)).part.value <= GetTrackingId(Some(r)).part.value
  {
    var t := GetTrackingId(Some(region));
    FilterMembers(page, SameTrackingFilter(t.prefix, t.part, true), r);
  }

  /** Exactly which regions the whole group keeps: ids starting with the prefix. */
  lemma {:induction false} SameTrackingMembers(page: seq<Region>, region: Region, r: Region)
    requires GetTrackingId(Some(region)).Tracking?
    ensures r in GetSameTrackingRegions(page, Some(region), false)
        <==> r in page && StartsWith(r.id, GetTrackingId(Some(region)).prefix)
  {
    var t := GetTrackingId(Some(region));
    FilterMembers(page, SameTrackingFilter(t.prefix, t.part, false), r);
  }

  // ---------------------------------------------------------------------------
  // Labels

  /** "さん" (the honorific that marks a person label). */
  const PersonSuffix: string := "\U{3055}\U{3093}"

  predicate IsPersonLabel(text: string) {
    EndsWith(text, PersonSuffix)
  }

  predicate IsActionLabel(text: string) {
    !IsPersonLabel(text)
  }

  /** `getLabelCount`: -1 for a missing region. */
  function LabelCount(region: Option<Region>): int {
    if region.None? then -1 else |region.value.labels|
  }

  /** `getPersonLabelCount` */
  function PersonLabelCount(region: Option<Region>): int {
    if region.None? then -1 else |Filter(region.value.labels, IsPersonLabel)|
  }

  /** `getActionLabelCount` */
  function ActionLabelCount(region: Option<Region>): int {
    if region.None? then -1 else |Filter(region.value.labels, IsActionLabel)|
  }

  lemma {:induction false} PersonAndActionPartition(labels: seq<string>)
    ensures |Filter(labels, IsPersonLabel)| + |Filter(labels, IsActionLabel)| == |labels|
  {
    if |labels| > 0 {
      PersonAndActionPartition(labels[1..]);
    }
  }

  /** Every label is a person label or an action label, never both; a missing
      region counts -1 in all three counters. */
  lemma {:induction false} LabelCountsAddUp(region: Option<Region>)
    ensures region.Some? ==> PersonLabelCount(region) + ActionLabelCount(region) == LabelCount(region)
    ensures region.None? ==> LabelCount(region) == PersonLabelCount(region) == ActionLabelCount(region) == -1
  {
    if region.Some? {
      PersonAndActionPartition(region.value.labels);
    }
  }

  predicate IsUnlabelled(r: Region) {
    |r.labels| == 0
  }

  /** `getEmptyLabelRegions` (over the list it is given) */
  function EmptyLabelRegions(regions: seq<Region>): seq<Region> {
    Filter(regions, IsUnlabelled)
  }

  function FirstOf(s: seq<Region>): Option<Region> {
    if |s| == 0 then None else Some(s[0])
  }

  /** `getEmptyLabelRegion`: returns at the first region with no label. */
  method GetEmptyLabelRegion(regions: seq<Region>) returns (r: Option<Region>)
    ensures r == FirstOf(EmptyLabelRegions(regions))
  {
    for i := 0 to |regions|
      invariant EmptyLabelRegions(regions[..i]) == []
    {
      FilterAppend(regions[..i], regions[i..], IsUnlabelled);
      assert regions[..i] + regions[i..] == regions;
      if |regions[i].labels| == 0 {
        return Some(regions[i]);
      }
      FilterAppend(regions[..i], [regions[i]], IsUnlabelled);
      assert regions[..i + 1] == regions[..i] + [regions[i]];
    }
    assert regions[..|regions|] == regions;
    return None;
  }

  /** The first unlabelled region of a list is unlabelled and every region
      before it is labelled; when there is none, every region is labelled. */
  lemma {:induction false} FirstUnlabelledIsFirst(regions: seq<Region>)
    ensures FirstOf(EmptyLabelRegions(regions)).None? <==> forall j :: 0 <= j < |regions| ==> !IsUnlabelled(regions[j])
    ensures FirstOf(EmptyLabelRegions(regions)).Some? ==>
      exists k :: 0 <= k < |regions| && regions[k] == FirstOf(EmptyLabelRegions(regions)).value
        && IsUnlabelled(regions[k]) && forall j :: 0 <= j < k ==> !IsUnlabelled(regions[j])
  {
    if |regions| > 0 {
      FirstUnlabelledIsFirst(regions[1..]);
      if !IsUnlabelled(regions[0]) && FirstOf(EmptyLabelRegions(regions[1..])).Some? {
        var k :| 0 <= k < |regions| - 1 && regions[1..][k] == FirstOf(EmptyLabelRegions(regions[1..])).value
          && IsUnlabelled(regions[1..][k]) && forall j :: 0 <= j < k ==> !IsUnlabelled(regions[1..][j]);
        assert regions[k + 1] == regions[1..][k];
        assert forall j :: 0 <= j < k + 1 ==> !IsUnlabelled(regions[j]) by {
          forall j | 0 <= j < k + 1 ensures !IsUnlabelled(regions[j]) {
            if j > 0 { assert regions[j] == regions[1..][j - 1]; }
          }
        }
      }
      if !IsUnlabelled(regions[0]) && FirstOf(EmptyLabelRegions(regions[1..])).None? {
        forall j | 0 <= j < |regions| ensures !IsUnlabelled(regions[j]) {
          if j > 0 { assert regions[j] == regions[1..][j - 1]; }
        }
      }
    }
  }
}
