/** The helper userscript's actions on the page: selecting a region (click,
    playhead move, timeline row), stepping to the next or previous region,
    jumping to the next unlabelled region, and bulk selection with a cancel
    flag. What the script does to the page is recorded as a log of effects.
    The page's region list belongs to the host: each region is a record of its
    fields as they were when a call began, and what the host's click handler
    does to a region's selection flags is not tracked. */
module HelperActions {
  import opened Common
  import opened Regions
  import opened RegionHelper

  /** The event object `getEvent` builds: all modifier keys off unless given. */
  datatype ClickEvent = ClickEvent(shiftKey: bool, ctrlKey: bool, metaKey: bool)

  /** `getEvent()` */
  const PlainClick := ClickEvent(false, false, false)
  /** `getEvent({ctrlKey: true})`: a click that adds to the selection. */
  const CtrlClick := ClickEvent(false, true, false)

  /** The title a bulk selection reports under. */
  datatype Title =
    | AllRegionsTitle                   // "すべてのリージョン"
    | FromPartTitle(tracking: TrackingId) // "<prefix><part>以降"
    | GroupTitle(name: string)          // the prefix without its last dash

  /** What the toasts say. */
  datatype Notice =
    | NoUnlabelledRegion                // "🎉 ラベルなしはありません"
    | NoRegionSelected                  // "リージョンが選択されていません"
    | Processing(title: Title)
    | Progress(step: nat, total: nat)   // "<i> / <n>"
    | CancelledNotice(title: Title)
    | CompletedNotice(title: Title, count: nat)

  /** One thing the script does to the page. */
  datatype Effect =
    | Click(id: string, event: ClickEvent)   // region.onClickRegion(event)
    | SetPosition(frame: int)                // the video playhead
    | SetSelectedIndex(index: nat)           // the timeline row shown
    | Show(notice: Notice)
    | BlockUI
    | UnblockUI

  /** How a bulk selection ends. `Stalled`: the step for that region threw
      inside its timer callback, so its promise never settles and the run
      never finishes (the page stays blocked). */
  datatype BulkRun = Completed(count: nat) | Cancelled(processed: nat) | Stalled(at: nat)

  /** What a call returns (or that it threw) together with the effects it had. */
  datatype Run<T> = Run(result: Outcome<T>, effects: seq<Effect>)

  // ---------------------------------------------------------------------------
  // selectRegion

  /** `selectRegion`: no region, or one without an `onClickRegion` handler,
      gives null and does nothing; otherwise the region is clicked unless it
      is already selected, the playhead moves to its first keyframe (which
      throws when it has none) and its row is shown when the page lists it. */
  function SelectRegionRun(region: Option<Region>, page: seq<Region>): Run<Option<Region>>
  {
    if region.None? || !region.value.hasOnClickRegion then Run(Return(None), [])
    else
      var r := region.value;
      var click := if r.selected then [] else [Click(r.id, PlainClick)];
      if |r.sequence| == 0 then Run(Throw, click)
      else
        var index := FindIndexById(page, r.id);
        var row := if index == -1 then [] else [SetSelectedIndex(index)];
        Run(Return(region), click + [SetPosition(r.sequence[0].frame)] + row)
  }

  /** A region that `selectRegion` can select without throwing. */
  predicate Selectable(r: Region) {
    r.hasOnClickRegion && |r.sequence| > 0
  }

  predicate Clicks(effects: seq<Effect>, id: string) {
    exists i :: 0 <= i < |effects| && effects[i].Click? && effects[i].id == id
  }

  /** selectRegion's behaviour: a no-op returning null exactly when the region
      is missing or has no handler; a click exactly when it is not selected;
      for a selectable region the region itself is returned, the playhead goes
      to its first keyframe and (ids being unique) its page row is shown. */
  lemma {:induction false} SelectRegionBehaviour(region: Option<Region>, page: seq<Region>)
    ensures SelectRegionRun(region, page) == Run(Return(None), [])
        <==> region.None? || !region.value.hasOnClickRegion
    ensures region.Some? && region.value.hasOnClickRegion ==>
      (Clicks(SelectRegionRun(region, page).effects, region.value.id) <==> !region.value.selected)
    ensures region.Some? && Selectable(region.value) ==>
      SelectRegionRun(region, page).result == Return(region)
      && SetPosition(region.value.sequence[0].frame) in SelectRegionRun(region, page).effects
    ensures region.Some? && Selectable(region.value) && UniqueIds(page) ==>
      forall k :: 0 <= k < |page| && page[k] == region.value ==>
        SelectRegionRun(region, page).effects[|SelectRegionRun(region, page).effects| - 1] == SetSelectedIndex(k)
  {
    if region.Some? && region.value.hasOnClickRegion {
      var run := SelectRegionRun(region, page);
      var r := region.value;
      if !r.selected {
        assert run.effects[0] == Click(r.id, PlainClick);
      }
      if Clicks(run.effects, r.id) {
        var i :| 0 <= i < |run.effects| && run.effects[i].Click? && run.effects[i].id == r.id;
        assert !r.selected;
      }
      if Selectable(r) && UniqueIds(page) {
        forall k | 0 <= k < |page| && page[k] == r
          ensures run.effects[|run.effects| - 1] == SetSelectedIndex(k)
        {
          FindIndexOfUnique(page, k);
        }
      }
    }
  }

  // ---------------------------------------------------------------------------
  // Jumping to unlabelled regions

  /** Where the labelled current region's search lands: the first unlabelled
      region at or after `index`, else the first one before it. */
  function WrapSearch(regions: seq<Region>, index: nat): Option<Region>
    requires index <= |regions|
  {
    var after := FirstOf(EmptyLabelRegions(regions[index..]));
    if after.Some? then after else FirstOf(EmptyLabelRegions(regions[..index]))
  }

  /** How far `j` lies after `index` when the list is read round from `index`. */
  function CyclicDistance(j: nat, index: nat, n: nat): nat
    requires j < n && index <= n
  {
    if j >= index then j - index else j + n - index
  }

  /** The first unlabelled region at or after `index`, in terms of the whole list. */
  lemma {:induction false} FirstUnlabelledFrom(regions: seq<Region>, index: nat)
    requires index <= |regions|
    ensures FirstOf(EmptyLabelRegions(regions[index..])).None?
        <==> forall j :: index <= j < |regions| ==> !IsUnlabelled(regions[j])
    ensures FirstOf(EmptyLabelRegions(regions[index..])).Some? ==>
      exists k :: index <= k < |regions| && regions[k] == FirstOf(EmptyLabelRegions(regions[index..])).value
        && IsUnlabelled(regions[k]) && forall j :: index <= j < k ==> !IsUnlabelled(regions[j])
  {
    var after := regions[index..];
    FirstUnlabelledIsFirst(after);
    assert forall j :: index <= j < |regions| ==> regions[j] == after[j - index];
    if FirstOf(EmptyLabelRegions(after)).Some? {
      var k :| 0 <= k < |after| && after[k] == FirstOf(EmptyLabelRegions(after)).value
        && IsUnlabelled(after[k]) && forall j :: 0 <= j < k ==> !IsUnlabelled(after[j]);
      assert regions[index + k] == after[k];
    }
  }

  /** The first unlabelled region before `index`, in terms of the whole list. */
  lemma {:induction false} FirstUnlabelledBefore(regions: seq<Region>, index: nat)
    requires index <= |regions|
    ensures FirstOf(EmptyLabelRegions(regions[..index])).None?
        <==> forall j :: 0 <= j < index ==> !IsUnlabelled(regions[j])
    ensures FirstOf(EmptyLabelRegions(regions[..index])).Some? ==>
      exists k :: 0 <= k < index && regions[k] == FirstOf(EmptyLabelRegions(regions[..index])).value
        && IsUnlabelled(regions[k]) && forall j :: 0 <= j < k ==> !IsUnlabelled(regions[j])
  {
    var before := regions[..index];
    FirstUnlabelledIsFirst(before);
    assert forall j :: 0 <= j < index ==> regions[j] == before[j];
  }

  /** The search reads the list once round from `index` and stops at the first
      unlabelled region; it finds nothing exactly when every region is labelled. */
  lemma {:induction false} WrapSearchIsCyclicFirst(regions: seq<Region>, index: nat)
    requires index <= |regions|
    ensures WrapSearch(regions, index).None? <==> forall j :: 0 <= j < |regions| ==> !IsUnlabelled(regions[j])
    ensures WrapSearch(regions, index).Some? ==>
      exists k :: 0 <= k < |regions| && WrapSearch(regions, index) == Some(regions[k]) && IsUnlabelled(regions[k])
        && forall j :: 0 <= j < |regions| && CyclicDistance(j, index, |regions|) < CyclicDistance(k, index, |regions|)
             ==> !IsUnlabelled(regions[j])
  {
    var n := |regions|;
    FirstUnlabelledFrom(regions, index);
    FirstUnlabelledBefore(regions, index);
    if FirstOf(EmptyLabelRegions(regions[index..])).Some? {
      var k :| index <= k < n && regions[k] == FirstOf(EmptyLabelRegions(regions[index..])).value
        && IsUnlabelled(regions[k]) && forall j :: index <= j < k ==> !IsUnlabelled(regions[j]);
      assert forall j :: 0 <= j < n && CyclicDistance(j, index, n) < CyclicDistance(k, index, n) ==> index <= j < k;
    } else if FirstOf(EmptyLabelRegions(regions[..index])).Some? {
      var k :| 0 <= k < index && regions[k] == FirstOf(EmptyLabelRegions(regions[..index])).value
        && IsUnlabelled(regions[k]) && forall j :: 0 <= j < k ==> !IsUnlabelled(regions[j]);
      assert forall j :: 0 <= j < n && CyclicDistance(j, index, n) < CyclicDistance(k, index, n) ==> index <= j || j < k;
    }
  }

  /** The region `selectNextEmptyLabelRegion` starts from: the page's selected
      region, else the first of the list it is given. */
  function StartRegion(page: seq<Region>, regions: seq<Region>): Option<Region> {
    var selected := GetSelectedRegion(page);
    if selected.Some? then selected else FirstOf(regions)
  }

  /** `selectNextEmptyLabelRegion(regions, reverse)`. When the start region is
      itself unlabelled, it steps (with wrap-around) through the page's
      unlabelled regions, reversed when `reverse`. Otherwise it selects the first
      unlabelled region at or after the start in `regions`, falling back to the
      first one before it; a missing start region throws (`s.id`), and one that
      `regions` does not hold ends the call quietly. */
  function NextEmptyLabelRun(page: seq<Region>, regions: seq<Region>, reverse: bool): Run<()>
  {
    var s := StartRegion(page, regions);
    if LabelCount(s) == 0 then EmptiesRun(page, reverse)
    else if s.None? then Run(Throw, [])
    else SearchRun(page, regions, s.value)
  }

  /** The unlabelled-start case: a step through the page's unlabelled regions. */
  function EmptiesRun(page: seq<Region>, reverse: bool): Run<()>
  {
    var empties := if reverse then Reverse(EmptyLabelRegions(page)) else EmptyLabelRegions(page);
    var next := SelectRegionRun(NextTarget(page, empties, true), page);
    if next.result.Throw? then Run(Throw, next.effects)
    else if next.result.value.None? then Run(Return(()), next.effects + [Show(NoUnlabelledRegion)])
    else Run(Return(()), next.effects)
  }

  /** The labelled-start case: the search from the start region `s`. */
  function SearchRun(page: seq<Region>, regions: seq<Region>, s: Region): Run<()>
  {
    var index := FindIndexById(regions, s.id);
    if index == -1 then Run(Return(()), []) else SearchAtRun(page, regions, index)
  }

  /** The search once the starting region is found at `index`: the first
      unlabelled region from there on, else the fallback before it. */
  function SearchAtRun(page: seq<Region>, regions: seq<Region>, index: nat): Run<()>
    requires index < |regions|
  {
    var first := SelectRegionRun(FirstOf(EmptyLabelRegions(regions[index..])), page);
    if first.result.Throw? then Run(Throw, first.effects)
    else if first.result.value.Some? then Run(Return(()), first.effects)
    else
      var second := FallbackRun(page, regions[..index]);
      Run(second.result, first.effects + second.effects)
  }

  /** The fallback of the search: the first unlabelled region before the start. */
  function FallbackRun(page: seq<Region>, earlier: seq<Region>): Run<()>
  {
    var second := SelectRegionRun(FirstOf(EmptyLabelRegions(earlier)), page);
    if second.result.Throw? then Run(Throw, second.effects)
    else if second.result.value.None? then Run(Return(()), second.effects + [Show(NoUnlabelledRegion)])
    else Run(Return(()), second.effects)
  }

  lemma {:induction false} FirstUnlabelledIn(regions: seq<Region>)
    ensures FirstOf(EmptyLabelRegions(regions)).Some? ==> FirstOf(EmptyLabelRegions(regions)).value in regions
  {
    var e := EmptyLabelRegions(regions);
    if |e| > 0 {
      FilterMembers(regions, IsUnlabelled, e[0]);
    }
  }

  /** From a labelled region that the list holds, when every region is
      selectable: the call returns normally, selects exactly the region the
      round-the-list search finds, and says "no unlabelled region" when there is none. */
  lemma {:induction false} NextEmptyLabelSelectsWrapSearch(page: seq<Region>, regions: seq<Region>, reverse: bool)
    requires forall r | r in regions :: Selectable(r)
    requires StartRegion(page, regions).Some? && LabelCount(StartRegion(page, regions)) != 0
    requires FindIndexById(regions, StartRegion(page, regions).value.id) != -1
    ensures var target := WrapSearch(regions, FindIndexById(regions, StartRegion(page, regions).value.id));
      NextEmptyLabelRun(page, regions, reverse)
        == Run(Return(()), SelectRegionRun(target, page).effects + if target.None? then [Show(NoUnlabelledRegion)] else [])
  {
    var index := FindIndexById(regions, StartRegion(page, regions).value.id);
    var after := FirstOf(EmptyLabelRegions(regions[index..]));
    var before := FirstOf(EmptyLabelRegions(regions[..index]));
    FirstUnlabelledIn(regions[index..]);
    FirstUnlabelledIn(regions[..index]);
    if after.Some? {
      assert after.value in regions;
    } else if before.Some? {
      assert before.value in regions;
    }
  }

  // ---------------------------------------------------------------------------
  // Bulk selection

  /** Whether Escape was pressed while step `i`'s timer was pending. */
  predicate Escaped(escape: seq<bool>, i: nat) {
    i < |escape| && escape[i]
  }

  /** How many of `n` steps run from step `i` on: the cancel flag is checked
      before each step, so the steps up to and including the one during which
      Escape is pressed run, and no more. */
  function StepsRun(escape: seq<bool>, n: nat, i: nat): (k: nat)
    requires i <= n
    ensures i <= k <= n
    ensures i < n ==> i < k
    ensures k < n ==> k >= 1 && Escaped(escape, k - 1)
    ensures forall j :: i <= j < k - 1 ==> !Escaped(escape, j)
    decreases n - i
  {
    if i == n then n
    else if Escaped(escape, i) then i + 1
    else StepsRun(escape, n, i + 1)
  }

  /** A region whose step throws: unselected, so it is clicked, but without a handler. */
  predicate Stalls(r: Region) {
    !IsSelectedRegion(r) && !r.hasOnClickRegion
  }

  /** The index of the first region whose step throws, or -1. */
  function FirstStall(list: seq<Region>): (s: int)
    ensures -1 <= s < |list|
    ensures s >= 0 ==> Stalls(list[s])
    ensures forall j :: 0 <= j < |list| && (s == -1 || j < s) ==> !Stalls(list[j])
  {
    if |list| == 0 then -1
    else if Stalls(list[0]) then 0
    else
      var t := FirstStall(list[1..]);
      if t == -1 then -1 else t + 1
  }

  /** Step `i` of `n`: the progress text, then a ctrl-click unless the region
      is already selected. */
  function StepEffect(r: Region, i: nat, n: nat): seq<Effect> {
    [Show(Progress(i, n))] + if IsSelectedRegion(r) then [] else [Click(r.id, CtrlClick)]
  }

  /** The effects of the first `k` steps. */
  function StepEffects(list: seq<Region>, k: nat): seq<Effect>
    requires k <= |list|
  {
    if k == 0 then [] else StepEffects(list, k - 1) + StepEffect(list[k - 1], k - 1, |list|)
  }

  function Opening(title: Title): seq<Effect> {
    [BlockUI, Show(Processing(title))]
  }

  /** `selectRegions(list, title, selectedRegion)` with the Escape presses given
      by `escape`. The steps run until Escape has been pressed; a step whose
      region cannot be clicked stalls the run. A run that saw Escape (even during
      its last step) runs `selectRegion` on `selectedRegion` (clicking it only
      if it was unselected when the call began), which may throw and leave the
      page blocked, and reports "cancelled"; otherwise it reports how many
      regions it selected. Either report unblocks the page. */
  function BulkSpec(page: seq<Region>, list: seq<Region>, title: Title, selected: Option<Region>, escape: seq<bool>): Run<BulkRun>
  {
    var n := |list|;
    var k := StepsRun(escape, n, 0);
    var s := FirstStall(list[..k]);
    if s >= 0 then Run(Return(Stalled(s)), Opening(title) + StepEffects(list, s) + [Show(Progress(s, n))])
    else if k > 0 && Escaped(escape, k - 1) then
      var restore := SelectRegionRun(selected, page);
      var effects := Opening(title) + StepEffects(list, k) + restore.effects;
      if restore.result.Throw? then Run(Throw, effects)
      else Run(Return(Cancelled(k)), effects + [Show(CancelledNotice(title)), UnblockUI])
    else Run(Return(Completed(n)), Opening(title) + StepEffects(list, n) + [Show(CompletedNotice(title, n)), UnblockUI])
  }

  /** A run that reaches step `i` with no Escape before it, at a region that
      stalls, stops there. */
  lemma {:induction false} BulkSpecStalled(page: seq<Region>, list: seq<Region>, title: Title, selected: Option<Region>, escape: seq<bool>, i: nat)
    requires i < |list| && Stalls(list[i]) && forall j :: 0 <= j < i ==> !Stalls(list[j])
    requires StepsRun(escape, |list|, 0) == StepsRun(escape, |list|, i)
    ensures BulkSpec(page, list, title, selected, escape)
         == Run(Return(Stalled(i)), Opening(title) + StepEffects(list, i) + [Show(Progress(i, |list|))])
  {
    var k := StepsRun(escape, |list|, 0);
    assert list[..k][i] == list[i];
    assert FirstStall(list[..k]) == i;
  }

  /** A run whose first `k` steps run, the last of them with Escape pressed. */
  lemma {:induction false} BulkSpecCancelled(page: seq<Region>, list: seq<Region>, title: Title, selected: Option<Region>, escape: seq<bool>, k: nat)
    requires k == StepsRun(escape, |list|, 0) && k > 0 && Escaped(escape, k - 1)
    requires forall j :: 0 <= j < k ==> !Stalls(list[j])
    ensures var restore := SelectRegionRun(selected, page);
      BulkSpec(page, list, title, selected, escape)
        == if restore.result.Throw? then Run(Throw, Opening(title) + StepEffects(list, k) + restore.effects)
           else Run(Return(Cancelled(k)), Opening(title) + StepEffects(list, k) + restore.effects
                                          + [Show(CancelledNotice(title)), UnblockUI])
  {
    assert FirstStall(list[..k]) == -1;
  }

  /** A run with no Escape during any step and no stalling region completes. */
  lemma {:induction false} BulkSpecCompleted(page: seq<Region>, list: seq<Region>, title: Title, selected: Option<Region>, escape: seq<bool>)
    requires forall i :: 0 <= i < |list| ==> !Escaped(escape, i) && !Stalls(list[i])
    ensures BulkSpec(page, list, title, selected, escape)
         == Run(Return(Completed(|list|)), Opening(title) + StepEffects(list, |list|)
                                           + [Show(CompletedNotice(title, |list|)), UnblockUI])
  {
    var n := |list|;
    assert StepsRun(escape, n, 0) == n;
    assert list[..n] == list;
    assert FirstStall(list[..n]) == -1;
  }

  function ClickedIds(effects: seq<Effect>): seq<string> {
    if |effects| == 0 then []
    else (if effects[0].Click? then [effects[0].id] else []) + ClickedIds(effects[1..])
  }

  lemma {:induction false} ClickedIdsAppend(a: seq<Effect>, b: seq<Effect>)
    ensures ClickedIds(a + b) == ClickedIds(a) + ClickedIds(b)
  {
    if |a| == 0 {
      assert a + b == b;
    } else {
      assert (a + b)[1..] == a[1..] + b;
      ClickedIdsAppend(a[1..], b);
    }
  }

  lemma {:induction false} ClickedIdsNone(effects: seq<Effect>)
    requires forall i :: 0 <= i < |effects| ==> !effects[i].Click?
    ensures ClickedIds(effects) == []
  {
    if |effects| > 0 {
      ClickedIdsNone(effects[1..]);
    }
  }

  function Ids(regions: seq<Region>): seq<string> {
    if |regions| == 0 then [] else [regions[0].id] + Ids(regions[1..])
  }

  lemma {:induction false} IdsAppend(a: seq<Region>, b: seq<Region>)
    ensures Ids(a + b) == Ids(a) + Ids(b)
  {
    if |a| == 0 {
      assert a + b == b;
    } else {
      assert (a + b)[1..] == a[1..] + b;
      IdsAppend(a[1..], b);
    }
  }

  predicate IsUnselected(r: Region) {
    !IsSelectedRegion(r)
  }

  /** The first `k` steps click exactly the unselected regions among the first
      `k`, once each and in list order. */
  lemma {:induction false} StepsClickUnselected(list: seq<Region>, k: nat)
    requires k <= |list|
    ensures ClickedIds(StepEffects(list, k)) == Ids(Filter(list[..k], IsUnselected))
  {
    if k > 0 {
      StepsClickUnselected(list, k - 1);
      var r := list[k - 1];
      ClickedIdsAppend(StepEffects(list, k - 1), StepEffect(r, k - 1, |list|));
      ClickedIdsAppend([Show(Progress(k - 1, |list|))], if IsSelectedRegion(r) then [] else [Click(r.id, CtrlClick)]);
      assert list[..k] == list[..k - 1] + [r];
      FilterAppend(list[..k - 1], [r], IsUnselected);
      IdsAppend(Filter(list[..k - 1], IsUnselected), Filter([r], IsUnselected));
    }
  }

  /** The effects of a completed run click every unselected region once, in order. */
  lemma {:induction false} CompletedClicks(list: seq<Region>, title: Title)
    ensures ClickedIds(Opening(title) + StepEffects(list, |list|) + [Show(CompletedNotice(title, |list|)), UnblockUI])
         == Ids(Filter(list, IsUnselected))
  {
    var n := |list|;
    assert list[..n] == list;
    var opening, steps, closing := Opening(title), StepEffects(list, n), [Show(CompletedNotice(title, n)), UnblockUI];
    StepsClickUnselected(list, n);
    ClickedIdsNone(opening);
    ClickedIdsNone(closing);
    ClickedIdsAppend(opening, steps);
    ClickedIdsAppend(opening + steps, closing);
  }

  /** Without Escape, and with every region clickable, the run completes and
      clicks every unselected region of the list once, in order. */
  lemma {:induction false} BulkCompletes(page: seq<Region>, list: seq<Region>, title: Title, selected: Option<Region>, escape: seq<bool>)
    requires forall i :: 0 <= i < |list| ==> !Escaped(escape, i) && !Stalls(list[i])
    ensures BulkSpec(page, list, title, selected, escape).result == Return(Completed(|list|))
    ensures ClickedIds(BulkSpec(page, list, title, selected, escape).effects) == Ids(Filter(list, IsUnselected))
  {
    BulkSpecCompleted(page, list, title, selected, escape);
    CompletedClicks(list, title);
  }

  /** Five unselected regions, Escape pressed while the third step is pending:
      three regions are processed, the run reports "cancelled", and the region
      selected beforehand is selected again. */
  lemma {:induction false} BulkCancelScenario(page: seq<Region>, list: seq<Region>, title: Title, selected: Region)
    requires |list| == 5 && forall r | r in list :: Selectable(r) && !IsSelectedRegion(r)
    requires Selectable(selected)
    ensures var run := BulkSpec(page, list, title, Some(selected), [false, false, true]);
      run.result == Return(Cancelled(3))
      && run.effects == Opening(title) + StepEffects(list, 3) + SelectRegionRun(Some(selected), page).effects
                        + [Show(CancelledNotice(title)), UnblockUI]
      && ClickedIds(StepEffects(list, 3)) == [list[0].id, list[1].id, list[2].id]
  {
    var escape := [false, false, true];
    assert StepsRun(escape, 5, 0) == 3;
    assert list[..3] == [list[0], list[1], list[2]];
    BulkSpecCancelled(page, list, title, Some(selected), escape, 3);
    StepsClickUnselected(list, 3);
    FilterKeepsAll(list[..3], IsUnselected);
    assert Ids([list[2]]) == [list[2].id];
    assert Ids([list[1], list[2]]) == [list[1].id] + Ids([list[2]]);
    assert Ids([list[0], list[1], list[2]]) == [list[0].id] + Ids([list[1], list[2]]);
  }

  // ---------------------------------------------------------------------------
  // The page

  /** The page the script runs on, with the script's own state. */
  class HelperScript {
    /** The host's region list, in timeline order (`getRegions()`). */
    var regions: seq<Region>
    /** `selectCancelFlag` */
    var cancelFlag: bool
    /** What the script has done to the page so far. */
    var effects: seq<Effect>

    constructor(regions: seq<Region>)
      ensures this.regions == regions && !cancelFlag && effects == []
    {
      this.regions := regions;
      cancelFlag := false;
      effects := [];
    }

    /** `setSelectedRegion`: show the region's row when the page lists it. */
    method SetSelectedRegion(region: Region)
      modifies this
      ensures var index := FindIndexById(regions, region.id);
        effects == old(effects) + if index == -1 then [] else [SetSelectedIndex(index)]
      ensures regions == old(regions) && cancelFlag == old(cancelFlag)
    {
      var index := FindIndexById(regions, region.id);
      if index != -1 {
        effects := effects + [SetSelectedIndex(index)];
      }
    }

    method SelectRegion(region: Option<Region>) returns (r: Outcome<Option<Region>>)
      modifies this
      ensures r == SelectRegionRun(region, old(regions)).result
      ensures effects == old(effects) + SelectRegionRun(region, old(regions)).effects
      ensures regions == old(regions) && cancelFlag == old(cancelFlag)
    {
      if region.None? || !region.value.hasOnClickRegion {
        return Return(None);
      }
      var target := region.value;
      if !target.selected {
        effects := effects + [Click(target.id, PlainClick)];
      }
      if |target.sequence| == 0 {
        return Throw;
      }
      effects := effects + [SetPosition(target.sequence[0].frame)];
      SetSelectedRegion(target);
      return Return(region);
    }

    /** `selectNextRegion({regions, cyclicSelect})` */
    method SelectNextRegion(list: seq<Region>, cyclicSelect: bool) returns (r: Outcome<Option<Region>>)
      modifies this
      ensures r == SelectRegionRun(NextTarget(old(regions), list, cyclicSelect), old(regions)).result
      ensures effects == old(effects) + SelectRegionRun(NextTarget(old(regions), list, cyclicSelect), old(regions)).effects
      ensures regions == old(regions) && cancelFlag == old(cancelFlag)
    {
      var current := GetSelectedRegion(regions);
      if current.None? && |list| > 0 {
        current := Some(list[0]);
      }
      if current.None? {
        return Return(None);
      }
      r := SelectRegion(GetNextRegion(current, list, cyclicSelect));
    }

    /** `selectPreviousRegion`: the next region over the reversed list. */
    method SelectPreviousRegion(list: seq<Region>, cyclicSelect: bool) returns (r: Outcome<Option<Region>>)
      modifies this
      ensures r == SelectRegionRun(NextTarget(old(regions), Reverse(list), cyclicSelect), old(regions)).result
      ensures effects == old(effects) + SelectRegionRun(NextTarget(old(regions), Reverse(list), cyclicSelect), old(regions)).effects
      ensures regions == old(regions) && cancelFlag == old(cancelFlag)
    {
      r := SelectNextRegion(Reverse(list), cyclicSelect);
    }

    /** `selectNextEmptyLabelRegion(list, reverse)` */
    method SelectNextEmptyLabelRegion(list: seq<Region>, reverse: bool) returns (r: Outcome<()>)
      modifies this
      ensures r == NextEmptyLabelRun(old(regions), list, reverse).result
      ensures effects == old(effects) + NextEmptyLabelRun(old(regions), list, reverse).effects
      ensures regions == old(regions) && cancelFlag == old(cancelFlag)
    {
      var s := GetSelectedRegion(regions);
      if s.None? && |list| > 0 {
        s := Some(list[0]);
      }
      if LabelCount(s) == 0 {
        r := StepThroughEmpties(reverse);
        return;
      }
      if s.None? {
        return Throw;
      }
      r := SearchFrom(list, s.value);
    }

    /** The unlabelled-start case of `selectNextEmptyLabelRegion`. */
    method StepThroughEmpties(reverse: bool) returns (r: Outcome<()>)
      modifies this
      ensures r == EmptiesRun(old(regions), reverse).result
      ensures effects == old(effects) + EmptiesRun(old(regions), reverse).effects
      ensures regions == old(regions) && cancelFlag == old(cancelFlag)
    {
      var empties := EmptyLabelRegions(regions);
      if reverse {
        empties := Reverse(empties);
      }
      var next := SelectNextRegion(empties, true);
      if next.Throw? {
        return Throw;
      }
      if next.value.None? {
        effects := effects + [Show(NoUnlabelledRegion)];
      }
      return Return(());
    }

    /** The labelled-start case of `selectNextEmptyLabelRegion`. */
    method SearchFrom(list: seq<Region>, s: Region) returns (r: Outcome<()>)
      modifies this
      ensures r == SearchRun(old(regions), list, s).result
      ensures effects == old(effects) + SearchRun(old(regions), list, s).effects
      ensures regions == old(regions) && cancelFlag == old(cancelFlag)
    {
      var index := FindIndexById(list, s.id);
      if index == -1 {
        return Return(());
      }
      r := SearchAt(list, index);
    }

    /** The labelled-start case once the start is found at `index`. */
    method SearchAt(list: seq<Region>, index: nat) returns (r: Outcome<()>)
      requires index < |list|
      modifies this
      ensures r == SearchAtRun(old(regions), list, index).result
      ensures effects == old(effects) + SearchAtRun(old(regions), list, index).effects
      ensures regions == old(regions) && cancelFlag == old(cancelFlag)
    {
      ghost var earlier := effects;
      var after := GetEmptyLabelRegion(list[index..]);
      ghost var firstRun := SelectRegionRun(after, regions);
      var first := SelectRegion(after);
      if first.Throw? {
        return Throw;
      }
      if first.value.Some? {
        return Return(());
      }
      ghost var secondRun := FallbackRun(regions, list[..index]);
      r := SearchBefore(list[..index]);
      assert effects == earlier + (firstRun.effects + secondRun.effects);
    }

    /** The fallback of `selectNextEmptyLabelRegion`'s search. */
    method SearchBefore(earlier: seq<Region>) returns (r: Outcome<()>)
      modifies this
      ensures r == FallbackRun(old(regions), earlier).result
      ensures effects == old(effects) + FallbackRun(old(regions), earlier).effects
      ensures regions == old(regions) && cancelFlag == old(cancelFlag)
    {
      var before := GetEmptyLabelRegion(earlier);
      var second := SelectRegion(before);
      if second.Throw? {
        return Throw;
      }
      if second.value.None? {
        effects := effects + [Show(NoUnlabelledRegion)];
      }
      return Return(());
    }

    /** `selectPreviousEmptyLabelRegion(list)` */
    method SelectPreviousEmptyLabelRegion(list: seq<Region>) returns (r: Outcome<()>)
      modifies this
      ensures r == NextEmptyLabelRun(old(regions), Reverse(list), true).result
      ensures effects == old(effects) + NextEmptyLabelRun(old(regions), Reverse(list), true).effects
      ensures regions == old(regions) && cancelFlag == old(cancelFlag)
    {
      r := SelectNextEmptyLabelRegion(Reverse(list), true);
    }

    /** `selectRegions(list, title, selectedRegion)`; `escape[i]` says whether
        Escape was pressed (setting the cancel flag) while step `i` was pending. */
    method SelectRegions(list: seq<Region>, title: Title, selectedRegion: Option<Region>, escape: seq<bool>)
      returns (r: Outcome<BulkRun>)
      modifies this
      ensures r == BulkSpec(old(regions), list, title, selectedRegion, escape).result
      ensures effects == old(effects) + BulkSpec(old(regions), list, title, selectedRegion, escape).effects
      ensures regions == old(regions) && !cancelFlag
    {
      cancelFlag := false;
      effects := effects + Opening(title);
      var i, stalled := RunSteps(list, escape);
      if stalled {
        BulkSpecStalled(old(regions), list, title, selectedRegion, escape, i);
        assert effects == old(effects) + (Opening(title) + StepEffects(list, i) + [Show(Progress(i, |list|))]);
        return Return(Stalled(i));
      }
      r := FinishRegions(list, title, selectedRegion, escape, i, old(effects));
    }

    /** The steps of `selectRegions`, one per region until Escape has been
        pressed or a step stalls: `i` steps ran in full, and when `stalled`
        step `i` stalled after showing its progress. */
    method RunSteps(list: seq<Region>, escape: seq<bool>) returns (i: nat, stalled: bool)
      requires !cancelFlag
      modifies this
      ensures i <= |list| && forall j :: 0 <= j < i ==> !Stalls(list[j])
      ensures stalled ==> effects == old(effects) + StepEffects(list, i) + [Show(Progress(i, |list|))]
      ensures !stalled ==> effects == old(effects) + StepEffects(list, i)
      ensures stalled ==> !cancelFlag && i < |list| && Stalls(list[i])
      ensures stalled ==> StepsRun(escape, |list|, 0) == StepsRun(escape, |list|, i)
      ensures !stalled && !cancelFlag ==> i == |list| && forall j :: 0 <= j < i ==> !Escaped(escape, j)
      ensures !stalled && cancelFlag ==> i == StepsRun(escape, |list|, 0) && i > 0 && Escaped(escape, i - 1)
      ensures regions == old(regions)
    {
      var n := |list|;
      i := 0;
      while i < n && !cancelFlag
        invariant 0 <= i <= n
        invariant regions == old(regions)
        invariant effects == old(effects) + StepEffects(list, i)
        invariant forall j :: 0 <= j < i ==> !Stalls(list[j])
        invariant !cancelFlag ==> StepsRun(escape, n, 0) == StepsRun(escape, n, i)
        invariant !cancelFlag ==> forall j :: 0 <= j < i ==> !Escaped(escape, j)
        invariant cancelFlag ==> i == StepsRun(escape, n, 0) && i > 0 && Escaped(escape, i - 1)
      {
        stalled := Step(list[i], i, n);
        if stalled {
          return;
        }
        assert StepEffects(list, i + 1) == StepEffects(list, i) + StepEffect(list[i], i, n);
        if Escaped(escape, i) {
          cancelFlag := true;
        }
        i := i + 1;
      }
      stalled := false;
    }

    /** Step `i` of `n` of `selectRegions`: show the progress, then ctrl-click
        the region unless it is already selected. A region without a click
        handler stalls the step: the timer callback throws before it resolves
        the step's promise, so the run never resumes. */
    method Step(region: Region, i: nat, n: nat) returns (stalled: bool)
      modifies this
      ensures stalled <==> Stalls(region)
      ensures stalled ==> effects == old(effects) + [Show(Progress(i, n))]
      ensures !stalled ==> effects == old(effects) + StepEffect(region, i, n)
      ensures regions == old(regions) && cancelFlag == old(cancelFlag)
    {
      effects := effects + [Show(Progress(i, n))];
      if !IsSelectedRegion(region) {
        if !region.hasOnClickRegion {
          return true;
        }
        effects := effects + [Click(region.id, CtrlClick)];
      }
      return false;
    }

    /** What `selectRegions` does once its loop has ended after `i` steps:
        run `selectRegion` on the earlier region and report "cancelled" when
        the flag is set, else report
        "completed", and unblock the page. */
    method FinishRegions(list: seq<Region>, title: Title, selectedRegion: Option<Region>, escape: seq<bool>, i: nat,
                         ghost earlier: seq<Effect>)
      returns (r: Outcome<BulkRun>)
      requires i <= |list| && forall j :: 0 <= j < i ==> !Stalls(list[j])
      requires effects == earlier + Opening(title) + StepEffects(list, i)
      requires !cancelFlag ==> i == |list| && forall j :: 0 <= j < i ==> !Escaped(escape, j)
      requires cancelFlag ==> i == StepsRun(escape, |list|, 0) && i > 0 && Escaped(escape, i - 1)
      modifies this
      ensures var spec := BulkSpec(old(regions), list, title, selectedRegion, escape);
        r == spec.result && effects == earlier + spec.effects
      ensures regions == old(regions) && !cancelFlag
    {
      if cancelFlag {
        r := FinishCancelled(list, title, selectedRegion, escape, i, earlier);
        return;
      }
      var n := |list|;
      BulkSpecCompleted(regions, list, title, selectedRegion, escape);
      effects := effects + [Show(CompletedNotice(title, n)), UnblockUI];
      assert effects == earlier + (Opening(title) + StepEffects(list, i) + [Show(CompletedNotice(title, n)), UnblockUI]);
      return Return(Completed(n));
    }

    /** The cancelled end of `selectRegions`: clear the flag, run `selectRegion`
        on `selectedRegion` (clicking it only if it was unselected when the call
        began; this may throw and leave the page blocked), then
        report "cancelled" and unblock the page. */
    method FinishCancelled(list: seq<Region>, title: Title, selectedRegion: Option<Region>, escape: seq<bool>, i: nat,
                           ghost earlier: seq<Effect>)
      returns (r: Outcome<BulkRun>)
      requires i <= |list| && forall j :: 0 <= j < i ==> !Stalls(list[j])
      requires effects == earlier + Opening(title) + StepEffects(list, i)
      requires i == StepsRun(escape, |list|, 0) && i > 0 && Escaped(escape, i - 1)
      modifies this
      ensures var spec := BulkSpec(old(regions), list, title, selectedRegion, escape);
        r == spec.result && effects == earlier + spec.effects
      ensures regions == old(regions) && !cancelFlag
    {
      BulkSpecCancelled(regions, list, title, selectedRegion, escape, i);
      ghost var steps := Opening(title) + StepEffects(list, i);
      ghost var restore := SelectRegionRun(selectedRegion, regions);
      cancelFlag := false;
      var restored := SelectRegion(selectedRegion);
      assert effects == earlier + (steps + restore.effects);
      if restored.Throw? {
        return Throw;
      }
      effects := effects + [Show(CancelledNotice(title)), UnblockUI];
      assert effects == earlier + (steps + restore.effects + [Show(CancelledNotice(title)), UnblockUI]);
      return Return(Cancelled(i));
    }

    /** `selectSameTrackingRegions({region, ignoreBeforeRegion})`: with no region,
        an error notice and nothing else; without `ignoreBeforeRegion`, a region
        whose id carries no tracking throws while the title is built; otherwise
        the bulk selection over the region's tracking group. */
    method SelectSameTrackingRegions(region: Option<Region>, ignoreBeforeRegion: bool, escape: seq<bool>)
      returns (r: Outcome<Option<BulkRun>>)
      modifies this
      ensures region.None? ==> r == Return(None) && effects == old(effects) + [Show(NoRegionSelected)]
      ensures region.Some? && !ignoreBeforeRegion && GetTrackingId(region).NoTracking? ==>
        r == Throw && effects == old(effects)
      ensures region.Some? && (ignoreBeforeRegion || GetTrackingId(region).Tracking?) ==>
        var title := if ignoreBeforeRegion then FromPartTitle(GetTrackingId(region))
                     else GroupTitle(DropLast(GetTrackingId(region).prefix));
        var bulk := BulkSpec(old(regions), GetSameTrackingRegions(old(regions), region, ignoreBeforeRegion), title, region, escape);
        effects == old(effects) + bulk.effects
        && r == if bulk.result.Throw? then Throw else Return(Some(bulk.result.value))
      ensures regions == old(regions)
    {
      if region.None? {
        effects := effects + [Show(NoRegionSelected)];
        return Return(None);
      }
      var tracking := GetTrackingId(region);
      var title: Title;
      if ignoreBeforeRegion {
        title := FromPartTitle(tracking);
      } else if tracking.NoTracking? {
        // `prefix.slice(0, -1)` on a null prefix
        return Throw;
      } else {
        title := GroupTitle(DropLast(tracking.prefix));
      }
      var run := SelectRegions(GetSameTrackingRegions(regions, region, ignoreBeforeRegion), title, region, escape);
      if run.Throw? {
        return Throw;
      }
      return Return(Some(run.value));
    }

    /** `selectAllRegions()` */
    method SelectAllRegions(escape: seq<bool>) returns (r: Outcome<BulkRun>)
      modifies this
      ensures r == BulkSpec(old(regions), old(regions), AllRegionsTitle, GetSelectedRegion(old(regions)), escape).result
      ensures effects == old(effects) + BulkSpec(old(regions), old(regions), AllRegionsTitle, GetSelectedRegion(old(regions)), escape).effects
      ensures regions == old(regions) && !cancelFlag
    {
      var selectedRegion := GetSelectedRegion(regions);
      r := SelectRegions(regions, AllRegionsTitle, selectedRegion, escape);
    }
  }

  /** `s.slice(0, -1)` */
  function DropLast(s: string): (r: string)
    ensures |s| > 0 ==> s == r + [s[|s| - 1]]
    ensures |s| == 0 ==> r == ""
  {
    if |s| == 0 then "" else s[..|s| - 1]
  }
}
