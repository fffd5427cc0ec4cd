/** The move/selection tool of the image editor: a mouse drag draws a
    selection rectangle and, on release, selects the regions inside it
    (extending the current selection when ctrl or meta is held); a click,
    behind the `FF_LSDV_4930` feature flag, cancels any drag and clears the
    selection. The drawing object and the annotation are seen only through the
    calls the tool makes on them. */
module SelectionTool {

  datatype Point = Point(x: int, y: int)

  /** The modifier keys of a mouse event. */
  datatype Modifiers = Modifiers(ctrlKey: bool, metaKey: bool)

  /** A mouse event delivered to the tool. `MouseUp` carries what the drawing
      object's `regionsInSelectionArea` holds once the selection end is set. */
  datatype ToolEvent =
    | MouseDown(at: Point)
    | MouseMove(at: Point)
    | MouseUp(keys: Modifiers, at: Point, inArea: seq<string>)
    | Click(keys: Modifiers)

  /** A call the tool makes on the drawing object or the annotation. */
  datatype Effect =
    | SetSelectionStart(start: Point)
    | SetSelectionEnd(end: Point)
    | ResetSelection
    | ExtendSelectionWith(ids: seq<string>)
    | SelectAreas(ids: seq<string>)
    | UnselectAreas

  /** The tool's defaults: shortcut "V" in the "control" group. */
  const DefaultShortcut := "V"
  const DefaultGroup := "control"

  /** The new `isSelecting` and the calls made, for one event. */
  function Step(flag: bool, selecting: bool, event: ToolEvent): (bool, seq<Effect>)
  {
    match event
    case MouseDown(p) => (true, [SetSelectionStart(p)])
    case MouseMove(p) => if !selecting then (selecting, []) else (selecting, [SetSelectionEnd(p)])
    case MouseUp(keys, p, inArea) =>
      if !selecting then (selecting, [])
      else
        var select := if keys.ctrlKey || keys.metaKey then ExtendSelectionWith(inArea) else SelectAreas(inArea);
        (false, [SetSelectionEnd(p), ResetSelection, select])
    case Click(keys) =>
      if !flag then (selecting, [])
      else (false, [ResetSelection] + (if !keys.ctrlKey && !keys.metaKey then [UnselectAreas] else []))
  }

  /** What a mouse event does while no drag is in progress: moves and
      releases do nothing at all, a press starts a drag at its point, and a
      click acts only under the feature flag. */
  lemma {:induction false} IdleSteps(flag: bool, event: ToolEvent)
    ensures var (selecting, effects) := Step(flag, false, event);
      (selecting <==> event.MouseDown?)
      && (event.MouseMove? || event.MouseUp? || (event.Click? && !flag) ==> effects == [])
      && (event.MouseDown? ==> effects == [SetSelectionStart(event.at)])
  {
  }

  /** The state and the calls after a sequence of events. */
  function Run(flag: bool, selecting: bool, events: seq<ToolEvent>): (bool, seq<Effect>)
  {
    if |events| == 0 then (selecting, [])
    else
      var (s, effects) := Run(flag, selecting, events[..|events| - 1]);
      var (s', more) := Step(flag, s, events[|events| - 1]);
      (s', effects + more)
  }

  /** An event that ends a drag: a release, or a click under the flag. */
  predicate EndsDrag(flag: bool, event: ToolEvent) {
    event.MouseUp? || (flag && event.Click?)
  }

  /** A drag is in progress: some press is not followed by an event that ends it. */
  predicate Dragging(flag: bool, events: seq<ToolEvent>) {
    exists i :: 0 <= i < |events| && events[i].MouseDown?
      && forall j :: i < j < |events| ==> !EndsDrag(flag, events[j])
  }

  /** Starting idle, `isSelecting` is true exactly while a drag is in progress. */
  lemma {:induction false} SelectingIffDragging(flag: bool, events: seq<ToolEvent>)
    ensures Run(flag, false, events).0 <==> Dragging(flag, events)
  {
    if |events| == 0 {
      return;
    }
    var init := events[..|events| - 1];
    var last := events[|events| - 1];
    SelectingIffDragging(flag, init);
    if last.MouseDown? {
      assert Dragging(flag, events) by {
        assert events[|events| - 1].MouseDown?;
      }
    } else if EndsDrag(flag, last) {
      forall i | 0 <= i < |events| && events[i].MouseDown?
        ensures i < |events| - 1 && EndsDrag(flag, events[|events| - 1])
      {
      }
    } else {
      assert Run(flag, false, events).0 == Run(flag, false, init).0;
      if Dragging(flag, init) {
        var i :| 0 <= i < |init| && init[i].MouseDown?
          && forall j :: i < j < |init| ==> !EndsDrag(flag, init[j]);
        assert events[i] == init[i];
        assert forall j :: i < j < |events| ==> !EndsDrag(flag, events[j]) by {
          forall j | i < j < |events| ensures !EndsDrag(flag, events[j]) {
            if j < |init| {
              assert events[j] == init[j];
            }
          }
        }
      }
      if Dragging(flag, events) {
        var i :| 0 <= i < |events| && events[i].MouseDown?
          && forall j :: i < j < |events| ==> !EndsDrag(flag, events[j]);
        assert i < |init|;
        assert init[i] == events[i];
        assert forall j :: i < j < |init| ==> !EndsDrag(flag, init[j]) by {
          forall j | i < j < |init| ensures !EndsDrag(flag, init[j]) {
            assert init[j] == events[j];
          }
        }
      }
    }
  }

  function Moves(points: seq<Point>): seq<ToolEvent> {
    seq(|points|, i requires 0 <= i < |points| => MouseMove(points[i]))
  }

  function SelectionEnds(points: seq<Point>): seq<Effect> {
    seq(|points|, i requires 0 <= i < |points| => SetSelectionEnd(points[i]))
  }

  lemma {:induction false} PressAndMoves(flag: bool, selecting: bool, start: Point, points: seq<Point>)
    ensures Run(flag, selecting, [MouseDown(start)] + Moves(points))
         == (true, [SetSelectionStart(start)] + SelectionEnds(points))
  {
    var events := [MouseDown(start)] + Moves(points);
    if |points| == 0 {
      assert events == [MouseDown(start)];
      assert events[..0] == [];
      assert Run(flag, selecting, events[..0]) == (selecting, []);
      assert SelectionEnds(points) == [];
      assert Step(flag, selecting, events[0]) == (true, [SetSelectionStart(start)]);
      assert Run(flag, selecting, events) == (true, [] + [SetSelectionStart(start)]);
      assert [] + [SetSelectionStart(start)] == [SetSelectionStart(start)] + SelectionEnds(points);
    } else {
      var init := points[..|points| - 1];
      assert events[..|events| - 1] == [MouseDown(start)] + Moves(init);
      assert events[|events| - 1] == MouseMove(points[|points| - 1]);
      PressAndMoves(flag, selecting, start, init);
      var before := Run(flag, selecting, events[..|events| - 1]);
      assert before == (true, [SetSelectionStart(start)] + SelectionEnds(init));
      assert Run(flag, selecting, events) == (true, before.1 + [SetSelectionEnd(points[|points| - 1])]);
      assert SelectionEnds(points) == SelectionEnds(init) + [SetSelectionEnd(points[|points| - 1])];
      assert before.1 + [SetSelectionEnd(points[|points| - 1])] == [SetSelectionStart(start)] + SelectionEnds(points);
    }
  }

  /** A whole drag from any state: the start is set, every move sets the end,
      the release sets the end, resets the rectangle and selects the regions
      in it (added to the selection with ctrl or meta, replacing it
      otherwise), and the tool is idle again. */
  lemma {:induction false} Drag(flag: bool, selecting: bool, start: Point, points: seq<Point>, keys: Modifiers, end: Point, inArea: seq<string>)
    ensures var events := [MouseDown(start)] + Moves(points) + [MouseUp(keys, end, inArea)];
      var select := if keys.ctrlKey || keys.metaKey then ExtendSelectionWith(inArea) else SelectAreas(inArea);
      Run(flag, selecting, events)
        == (false, [SetSelectionStart(start)] + SelectionEnds(points) + [SetSelectionEnd(end), ResetSelection, select])
  {
    var events := [MouseDown(start)] + Moves(points) + [MouseUp(keys, end, inArea)];
    assert events[..|events| - 1] == [MouseDown(start)] + Moves(points);
    PressAndMoves(flag, selecting, start, points);
  }

  /** The tool instance: the closure's `isSelecting` and the calls made so far. */
  class Tool {
    /** Whether `FF_LSDV_4930` is on. */
    const flag: bool
    const shortcut: string
    const group: string
    var isSelecting: bool
    var effects: seq<Effect>

    constructor(flag: bool)
      ensures this.flag == flag && shortcut == DefaultShortcut && group == DefaultGroup
      ensures !isSelecting && effects == []
    {
      this.flag := flag;
      shortcut := DefaultShortcut;
      group := DefaultGroup;
      isSelecting := false;
      effects := [];
    }

    /** The move tool always interacts with regions. */
    method ShouldSkipInteractions() returns (skip: bool)
      ensures !skip
    {
      return false;
    }

    method MousedownEv(at: Point)
      modifies this
      ensures isSelecting == Step(flag, old(isSelecting), MouseDown(at)).0
      ensures effects == old(effects) + Step(flag, old(isSelecting), MouseDown(at)).1
    {
      isSelecting := true;
      effects := effects + [SetSelectionStart(at)];
    }

    method MousemoveEv(at: Point)
      modifies this
      ensures isSelecting == Step(flag, old(isSelecting), MouseMove(at)).0
      ensures effects == old(effects) + Step(flag, old(isSelecting), MouseMove(at)).1
    {
      if !isSelecting {
        return;
      }
      effects := effects + [SetSelectionEnd(at)];
    }

    method MouseupEv(keys: Modifiers, at: Point, inArea: seq<string>)
      modifies this
      ensures isSelecting == Step(flag, old(isSelecting), MouseUp(keys, at, inArea)).0
      ensures effects == old(effects) + Step(flag, old(isSelecting), MouseUp(keys, at, inArea)).1
    {
      if !isSelecting {
        return;
      }
      effects := effects + [SetSelectionEnd(at)];
      var regionsInSelectionArea := inArea;
      effects := effects + [ResetSelection];
      if keys.ctrlKey || keys.metaKey {
        effects := effects + [ExtendSelectionWith(regionsInSelectionArea)];
      } else {
        effects := effects + [SelectAreas(regionsInSelectionArea)];
      }
      isSelecting := false;
    }

    method ClickEv(keys: Modifiers)
      modifies this
      ensures isSelecting == Step(flag, old(isSelecting), Click(keys)).0
      ensures effects == old(effects) + Step(flag, old(isSelecting), Click(keys)).1
    {
      if flag {
        isSelecting := false;
        effects := effects + [ResetSelection];
        if !keys.ctrlKey && !keys.metaKey {
          effects := effects + [UnselectAreas];
        }
      }
    }

    /** Delivers one event to its handler. */
    method Handle(event: ToolEvent)
      modifies this
      ensures isSelecting == Step(flag, old(isSelecting), event).0
      ensures effects == old(effects) + Step(flag, old(isSelecting), event).1
    {
      match event
      case MouseDown(p) => MousedownEv(p);
      case MouseMove(p) => MousemoveEv(p);
      case MouseUp(keys, p, inArea) => MouseupEv(keys, p, inArea);
      case Click(keys) => ClickEv(keys);
    }

    /** Delivers events in order; a fresh tool then reports a drag in progress
        exactly when one is. */
    method HandleAll(events: seq<ToolEvent>)
      modifies this
      ensures isSelecting == Run(flag, old(isSelecting), events).0
      ensures effects == old(effects) + Run(flag, old(isSelecting), events).1
    {
      for k := 0 to |events|
        invariant isSelecting == Run(flag, old(isSelecting), events[..k]).0
        invariant effects == old(effects) + Run(flag, old(isSelecting), events[..k]).1
      {
        assert events[..k + 1][..k] == events[..k];
        Handle(events[k]);
      }
      assert events[..|events|] == events;
    }
  }
}
