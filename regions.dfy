/** The video region record that both the timeline views and the helper
    userscript read: its id, display colour, selection flags, labels, whether it
    carries an `onClickRegion` handler, and its keyframe sequence. */
module Regions {

  /** One keyframe of a region's lifespan. */
  datatype Keyframe = Keyframe(frame: int, enabled: bool)

  datatype Region = Region(
    id: string,
    color: string,
    selected: bool,
    inSelection: bool,
    labels: seq<string>,
    hasOnClickRegion: bool,
    sequence: seq<Keyframe>)

  /** `regions.findIndex(r => r.id === id)`: the first index holding that id, or -1. */
  function FindIndexById(regions: seq<Region>, id: string): (i: int)
    ensures -1 <= i < |regions|
    ensures i >= 0 ==> regions[i].id == id
    ensures forall j :: 0 <= j < |regions| && (i == -1 || j < i) ==> regions[j].id != id
  {
    if |regions| == 0 then -1
    else if regions[0].id == id then 0
    else
      var k := FindIndexById(regions[1..], id);
      if k == -1 then -1 else k + 1
  }

  /** Region ids are unique within a task's region list. */
  predicate UniqueIds(regions: seq<Region>) {
    forall i, j :: 0 <= i < j < |regions| ==> regions[i].id != regions[j].id
  }

  lemma {:induction false} FindIndexOfUnique(regions: seq<Region>, k: nat)
    requires UniqueIds(regions) && k < |regions|
    ensures FindIndexById(regions, regions[k].id) == k
  {
  }
}
