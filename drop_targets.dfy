/** Hit-testing of a pointer position against the planner's drop zones
    (src/components/planner/drag/dropTargets.ts).

    The browser DOM is replaced by an abstract element record: the element's
    `data-drag-target`, `data-list-id`, `data-task-id`, `data-day-key` and
    `data-hour` attributes (absent = None), its DOM `id` (absent = ""), its
    bounding rectangle in integer pixels and its parent element. The list of
    elements under the pointer (`document.elementsFromPoint`, nearest first)
    is an input. */
module DropTargets {
  import opened Common

  const BacklogListHeaderIdPrefix: string := "backlog-list-header-"
  const BacklogListZoneIdPrefix: string := "backlog-list-zone-"

  /** Pixel height of one hour row when the layout constant is 0 (`|| 60`). */
  const DefaultSlotHeight: nat := 60

  datatype Position = Before | After
  datatype DayOrigin = Daily | TaskBoard

  /** `PlannerDropTarget` */
  datatype DropTarget =
    | TaskTarget(listId: string, taskId: string, position: Position)
    | ListTarget(listId: string)
    | DayTarget(dayKey: string, origin: Option<DayOrigin>)
    | CalendarSlot(dayKey: string, hour: int)

  /** `PlannerListHoverTarget`: the task and list members of the union. */
  predicate IsListHoverTarget(t: DropTarget)
  {
    t.TaskTarget? || t.ListTarget?
  }

  datatype Rect = Rect(top: int, height: int)

  /** An element of the rendered view; `parent` is `parentElement`. */
  datatype Element = Element(
    dragTarget: Option<string>,
    listId: Option<string>,
    taskId: Option<string>,
    dayKey: Option<string>,
    hour: Option<string>,
    domId: string,
    rect: Rect,
    parent: Option<Element>)

  /** The element followed by its ancestors, innermost first. */
  function Ancestors(e: Element): (r: seq<Element>)
    ensures |r| >= 1 && r[0] == e
    decreases e
  {
    match e.parent
    case None => [e]
    case Some(p) => [e] + Ancestors(p)
  }

  // ---------------------------------------------------------------------
  // Number(hourString)

  predicate AllDigits(s: string)
  {
    forall i :: 0 <= i < |s| ==> IsDigit(s[i])
  }

  /** `Number(s)` for an optionally signed decimal integer; None stands for
      NaN. */
  function ParseHour(s: string): (r: Option<int>)
    ensures AllDigits(s) && s != "" ==> r == Some(DigitsValue(s))
    ensures r.Some? ==> s != "" && (AllDigits(s) || (s[0] == '-' && AllDigits(s[1..])))
  {
    if s != "" && AllDigits(s) then Some(DigitsValue(s))
    else if |s| >= 2 && s[0] == '-' && AllDigits(s[1..]) then Some(-(DigitsValue(s[1..]) as int))
    else None
  }

  /** `Number(String(h))` is `h`. */
  lemma ParseHourOfIntToString(h: int)
    ensures ParseHour(IntToString(h)) == Some(h)
  {
    if h < 0 {
      var n := NatToString(-h);
      DigitsValueOfNatToString(-h);
      assert IntToString(h) == "-" + n;
      assert ("-" + n)[1..] == n && AllDigits(n);
      assert !IsDigit(("-" + n)[0]);
      assert ParseHour("-" + n) == Some(-(DigitsValue(n) as int));
    } else {
      var n := NatToString(h);
      DigitsValueOfNatToString(h);
      assert AllDigits(n);
    }
  }

  // ---------------------------------------------------------------------
  // Geometry

  /** The row's lower half, midpoint included: `pointerY >= top + height / 2`
      over the reals, scaled by 2 to stay in the integers. */
  predicate InLowerHalf(pointerY: int, r: Rect)
  {
    2 * pointerY >= 2 * r.top + r.height
  }

  /** `HOUR_BLOCK_HEIGHT || 60` */
  function SlotHeight(hourBlockHeight: nat): (h: nat)
    ensures h > 0
    ensures hourBlockHeight > 0 ==> h == hourBlockHeight
  {
    if hourBlockHeight == 0 then DefaultSlotHeight else hourBlockHeight
  }

  /** `Math.max(0, Math.min(23, Math.floor(relativeY / slotHeight)))`: the hour
      row of the day column that contains the pointer, clamped to the day. */
  function HourAt(relativeY: int, slotHeight: nat): (hour: int)
    requires slotHeight > 0
    ensures 0 <= hour <= 23
    ensures 0 <= relativeY < 24 * slotHeight ==>
              hour * slotHeight <= relativeY < (hour + 1) * slotHeight
    ensures relativeY < 0 ==> hour == 0
    ensures relativeY >= 24 * slotHeight ==> hour == 23
  {
    var q := relativeY / slotHeight;
    if q < 0 then 0 else if q > 23 then 23 else q
  }

  // ---------------------------------------------------------------------
  // One element

  /** What the element's own `data-drag-target` tag makes of it (the
      if/else-if chain of resolveDropTargetFromNode). Unknown tags and tags
      whose metadata is missing give None. */
  function TagTarget(e: Element, draggingTaskId: Option<string>, pointerY: int, hourBlockHeight: nat)
    : (r: Option<DropTarget>)
    ensures r.Some? ==> e.dragTarget.Some?
    ensures r.Some? && r.value.TaskTarget? ==>
              && e.dragTarget == Some("backlogTask")
              && Truthy(e.listId) && r.value.listId == e.listId.value
              && Truthy(e.taskId) && r.value.taskId == e.taskId.value
              && Some(r.value.taskId) != draggingTaskId
              && (r.value.position == After <==> InLowerHalf(pointerY, e.rect))
    ensures (e.dragTarget == Some("backlogTask") && Truthy(e.listId) && Truthy(e.taskId)
             && Some(e.taskId.value) != draggingTaskId) ==> r.Some? && r.value.TaskTarget?
    ensures e.dragTarget == Some("backlogTask") && draggingTaskId.Some? && e.taskId == draggingTaskId ==> r.None?
    ensures r.Some? && r.value.ListTarget? ==>
              e.dragTarget in {Some("listEntry"), Some("listZone")} && Truthy(e.listId) && r.value.listId == e.listId.value
    ensures e.dragTarget in {Some("listEntry"), Some("listZone")} ==> (r.Some? <==> Truthy(e.listId))
    ensures r.Some? && r.value.DayTarget? ==>
              && e.dragTarget in {Some("dailyTaskList"), Some("taskColumn")}
              && Truthy(e.dayKey) && r.value.dayKey == e.dayKey.value
              && r.value.origin.Some?
              && (r.value.origin == Some(TaskBoard) <==> e.dragTarget == Some("taskColumn"))
    ensures e.dragTarget in {Some("dailyTaskList"), Some("taskColumn")} ==> (r.Some? <==> Truthy(e.dayKey))
    ensures e.dragTarget == Some("calendarSlot") ==>
              (r.Some? <==> Truthy(e.dayKey) && Truthy(e.hour) && ParseHour(e.hour.value).Some?)
    ensures e.dragTarget == Some("calendarSlot") && r.Some? ==>
              r == Some(CalendarSlot(e.dayKey.value, ParseHour(e.hour.value).value))
    ensures e.dragTarget == Some("calendarDay") ==> (r.Some? <==> Truthy(e.dayKey))
    ensures e.dragTarget == Some("calendarDay") && r.Some? ==>
              && r.value.CalendarSlot? && r.value.dayKey == e.dayKey.value
              && r.value.hour == HourAt(pointerY - e.rect.top, SlotHeight(hourBlockHeight))
    ensures r.Some? && r.value.CalendarSlot? ==> e.dragTarget in {Some("calendarSlot"), Some("calendarDay")}
  {
    match e.dragTarget
    case None => None
    case Some(tag) =>
      if tag == "backlogTask" then
        if Truthy(e.listId) && Truthy(e.taskId) && Some(e.taskId.value) != draggingTaskId then
          var position := if InLowerHalf(pointerY, e.rect) then After else Before;
          Some(TaskTarget(e.listId.value, e.taskId.value, position))
        else None
      else if tag == "listEntry" || tag == "listZone" then
        if Truthy(e.listId) then Some(ListTarget(e.listId.value)) else None
      else if tag == "dailyTaskList" || tag == "taskColumn" then
        if Truthy(e.dayKey) then
          Some(DayTarget(e.dayKey.value, Some(if tag == "taskColumn" then TaskBoard else Daily)))
        else None
      else if tag == "calendarSlot" then
        if Truthy(e.dayKey) && Truthy(e.hour) then
          match ParseHour(e.hour.value)
          case Some(hour) => Some(CalendarSlot(e.dayKey.value, hour))
          case None => None
        else None
      else if tag == "calendarDay" then
        if Truthy(e.dayKey) then
          Some(CalendarSlot(e.dayKey.value, HourAt(pointerY - e.rect.top, SlotHeight(hourBlockHeight))))
        else None
      else None
  }

  /** resolveListIdFromDomId: the list id after a backlog header or zone
      prefix. The caller ignores an empty result. */
  function ListIdFromDomId(domId: string): (r: Option<string>)
    ensures r.Some? ==> StartsWith(domId, BacklogListHeaderIdPrefix) || StartsWith(domId, BacklogListZoneIdPrefix)
  {
    if domId == "" then None
    else if StartsWith(domId, BacklogListHeaderIdPrefix) then Some(domId[|BacklogListHeaderIdPrefix|..])
    else if StartsWith(domId, BacklogListZoneIdPrefix) then Some(domId[|BacklogListZoneIdPrefix|..])
    else None
  }

  /** Encoding a list id behind either prefix and decoding it gives it back. */
  lemma ListIdFromDomIdRoundTrip(listId: string)
    ensures ListIdFromDomId(BacklogListHeaderIdPrefix + listId) == Some(listId)
    ensures ListIdFromDomId(BacklogListZoneIdPrefix + listId) == Some(listId)
  {
    var h := BacklogListHeaderIdPrefix + listId;
    var z := BacklogListZoneIdPrefix + listId;
    assert h[..|BacklogListHeaderIdPrefix|] == BacklogListHeaderIdPrefix;
    assert h[|BacklogListHeaderIdPrefix|..] == listId;
    assert z[..|BacklogListZoneIdPrefix|] == BacklogListZoneIdPrefix;
    assert z[|BacklogListZoneIdPrefix|..] == listId;
    assert z[13] == 'z' != BacklogListHeaderIdPrefix[13];
    assert !StartsWith(z, BacklogListHeaderIdPrefix);
  }

  /** Conversely every decoded id came from one of the two encodings. */
  lemma ListIdFromDomIdOnlyPrefixed(domId: string, listId: string)
    requires ListIdFromDomId(domId) == Some(listId)
    ensures domId == BacklogListHeaderIdPrefix + listId || domId == BacklogListZoneIdPrefix + listId
  {
    if StartsWith(domId, BacklogListHeaderIdPrefix) {
      assert domId == domId[..|BacklogListHeaderIdPrefix|] + domId[|BacklogListHeaderIdPrefix|..];
    } else {
      assert domId == domId[..|BacklogListZoneIdPrefix|] + domId[|BacklogListZoneIdPrefix|..];
    }
  }

  /** What one step of the ancestor walk returns for `current`: its tag's
      target, else a list target decoded from its DOM id, else nothing. */
  function NodeTarget(e: Element, draggingTaskId: Option<string>, pointerY: int, hourBlockHeight: nat)
    : (r: Option<DropTarget>)
    ensures TagTarget(e, draggingTaskId, pointerY, hourBlockHeight).Some? ==>
              r == TagTarget(e, draggingTaskId, pointerY, hourBlockHeight)
    ensures TagTarget(e, draggingTaskId, pointerY, hourBlockHeight).None? ==>
              (r.Some? <==> Truthy(ListIdFromDomId(e.domId)))
    ensures TagTarget(e, draggingTaskId, pointerY, hourBlockHeight).None? && r.Some? ==>
              r == Some(ListTarget(ListIdFromDomId(e.domId).value))
  {
    var tagged := TagTarget(e, draggingTaskId, pointerY, hourBlockHeight);
    if tagged.Some? then tagged
    else
      var fromId := ListIdFromDomId(e.domId);
      if Truthy(fromId) then Some(ListTarget(fromId.value)) else None
  }

  /** No element ever resolves to the row of the task being dragged. */
  lemma NodeTargetSkipsDraggedTask(e: Element, d: string, pointerY: int, hourBlockHeight: nat)
    ensures var r := NodeTarget(e, Some(d), pointerY, hourBlockHeight);
            !(r.Some? && r.value.TaskTarget? && r.value.taskId == d)
  {
  }

  // ---------------------------------------------------------------------
  // The ancestor walk

  /** The first element of `nodes` (innermost first) that resolves. */
  function FirstTarget(nodes: seq<Element>, draggingTaskId: Option<string>, pointerY: int, hourBlockHeight: nat)
    : Option<DropTarget>
  {
    if nodes == [] then None
    else
      var here := NodeTarget(nodes[0], draggingTaskId, pointerY, hourBlockHeight);
      if here.Some? then here else FirstTarget(nodes[1..], draggingTaskId, pointerY, hourBlockHeight)
  }

  /** resolveDropTargetFromNode, as a specification. */
  function ResolveFromNode(node: Element, draggingTaskId: Option<string>, pointerY: int, hourBlockHeight: nat)
    : Option<DropTarget>
  {
    FirstTarget(Ancestors(node), draggingTaskId, pointerY, hourBlockHeight)
  }

  /** The walk yields nothing exactly when no element on it resolves. */
  lemma {:induction false} FirstTargetNone(nodes: seq<Element>, draggingTaskId: Option<string>, pointerY: int, hourBlockHeight: nat)
    ensures FirstTarget(nodes, draggingTaskId, pointerY, hourBlockHeight).None? <==>
            forall k :: 0 <= k < |nodes| ==> NodeTarget(nodes[k], draggingTaskId, pointerY, hourBlockHeight).None?
  {
    if nodes != [] {
      FirstTargetNone(nodes[1..], draggingTaskId, pointerY, hourBlockHeight);
      assert forall k :: 1 <= k < |nodes| ==> nodes[k] == nodes[1..][k - 1];
    }
  }

  /** Innermost wins: the walk returns the target of the first element that
      resolves, whatever any enclosing element would resolve to. */
  lemma {:induction false} FirstTargetIsInnermost(nodes: seq<Element>, k: nat, draggingTaskId: Option<string>, pointerY: int, hourBlockHeight: nat)
    requires k < |nodes|
    requires NodeTarget(nodes[k], draggingTaskId, pointerY, hourBlockHeight).Some?
    requires forall j :: 0 <= j < k ==> NodeTarget(nodes[j], draggingTaskId, pointerY, hourBlockHeight).None?
    ensures FirstTarget(nodes, draggingTaskId, pointerY, hourBlockHeight)
            == NodeTarget(nodes[k], draggingTaskId, pointerY, hourBlockHeight)
  {
    if k > 0 {
      assert forall j :: 0 <= j < k - 1 ==> nodes[1..][j] == nodes[j + 1];
      FirstTargetIsInnermost(nodes[1..], k - 1, draggingTaskId, pointerY, hourBlockHeight);
    }
  }

  /** Whatever the walk returns is some element's own target. */
  lemma {:induction false} FirstTargetFromSomeNode(nodes: seq<Element>, draggingTaskId: Option<string>, pointerY: int, hourBlockHeight: nat)
    returns (k: nat)
    requires FirstTarget(nodes, draggingTaskId, pointerY, hourBlockHeight).Some?
    ensures k < |nodes|
    ensures NodeTarget(nodes[k], draggingTaskId, pointerY, hourBlockHeight)
            == FirstTarget(nodes, draggingTaskId, pointerY, hourBlockHeight)
    ensures forall j :: 0 <= j < k ==> NodeTarget(nodes[j], draggingTaskId, pointerY, hourBlockHeight).None?
  {
    if NodeTarget(nodes[0], draggingTaskId, pointerY, hourBlockHeight).Some? {
      k := 0;
    } else {
      var k' := FirstTargetFromSomeNode(nodes[1..], draggingTaskId, pointerY, hourBlockHeight);
      k := k' + 1;
      assert forall j :: 1 <= j < k ==> nodes[j] == nodes[1..][j - 1];
    }
  }

  /** The dragged task's own row is never a target, on any walk. */
  lemma {:induction false} FirstTargetSkipsDraggedTask(nodes: seq<Element>, d: string, pointerY: int, hourBlockHeight: nat)
    ensures var r := FirstTarget(nodes, Some(d), pointerY, hourBlockHeight);
            !(r.Some? && r.value.TaskTarget? && r.value.taskId == d)
  {
    if nodes != [] {
      NodeTargetSkipsDraggedTask(nodes[0], d, pointerY, hourBlockHeight);
      FirstTargetSkipsDraggedTask(nodes[1..], d, pointerY, hourBlockHeight);
    }
  }

  /** Dragging a task over its own row, inside a list entry, targets that
      list: the walk skips the row and continues upward. */
  lemma OwnRowFallsThroughToList(row: Element, entry: Element, d: string, pointerY: int, hourBlockHeight: nat)
    requires row.dragTarget == Some("backlogTask") && row.taskId == Some(d)
    requires ListIdFromDomId(row.domId).None?
    requires row.parent == Some(entry)
    requires entry.dragTarget == Some("listEntry") && Truthy(entry.listId)
    ensures ResolveFromNode(row, Some(d), pointerY, hourBlockHeight) == Some(ListTarget(entry.listId.value))
  {
    var ts := Ancestors(row);
    assert ts == [row] + Ancestors(entry);
    assert ts[1..] == Ancestors(entry);
    assert NodeTarget(row, Some(d), pointerY, hourBlockHeight).None?;
    assert NodeTarget(entry, Some(d), pointerY, hourBlockHeight) == Some(ListTarget(entry.listId.value));
    assert FirstTarget(ts, Some(d), pointerY, hourBlockHeight) == FirstTarget(ts[1..], Some(d), pointerY, hourBlockHeight);
  }

  /** resolveDropTargetFromNode: walk from `node` up the parent chain and
      return the first target found. */
  method ResolveDropTargetFromNode(node: Element, draggingTaskId: Option<string>, pointerY: int, hourBlockHeight: nat)
    returns (target: Option<DropTarget>)
    ensures target == ResolveFromNode(node, draggingTaskId, pointerY, hourBlockHeight)
  {
    var current := node;
    while true
      invariant FirstTarget(Ancestors(current), draggingTaskId, pointerY, hourBlockHeight)
                == ResolveFromNode(node, draggingTaskId, pointerY, hourBlockHeight)
      decreases current
    {
      var here := NodeTarget(current, draggingTaskId, pointerY, hourBlockHeight);
      if here.Some? {
        return here;
      }
      match current.parent {
        case None =>
          return None;
        case Some(p) =>
          assert Ancestors(current)[1..] == Ancestors(p);
          current := p;
      }
    }
  }

  // ---------------------------------------------------------------------
  // Candidates under the pointer

  /** The first non-null candidate whose walk resolves. */
  function FirstCandidateTarget(candidates: seq<Option<Element>>, draggingTaskId: Option<string>, pointerY: int, hourBlockHeight: nat)
    : Option<DropTarget>
  {
    if candidates == [] then None
    else if candidates[0].None? then FirstCandidateTarget(candidates[1..], draggingTaskId, pointerY, hourBlockHeight)
    else
      var t := ResolveFromNode(candidates[0].value, draggingTaskId, pointerY, hourBlockHeight);
      if t.Some? then t else FirstCandidateTarget(candidates[1..], draggingTaskId, pointerY, hourBlockHeight)
  }

  /** resolvePlannerDropTarget, as a specification: nothing without a
      document, otherwise the first candidate that resolves. */
  function PlannerDropTarget(hasDocument: bool, candidates: seq<Option<Element>>, draggingTaskId: Option<string>, pointerY: int, hourBlockHeight: nat)
    : Option<DropTarget>
  {
    if !hasDocument then None
    else FirstCandidateTarget(candidates, draggingTaskId, pointerY, hourBlockHeight)
  }

  /** The dragged task's own row is never the resolved target. */
  lemma {:induction false} PlannerDropTargetSkipsDraggedTask(hasDocument: bool, candidates: seq<Option<Element>>, d: string, pointerY: int, hourBlockHeight: nat)
    ensures var r := PlannerDropTarget(hasDocument, candidates, Some(d), pointerY, hourBlockHeight);
            !(r.Some? && r.value.TaskTarget? && r.value.taskId == d)
  {
    if hasDocument && candidates != [] {
      if candidates[0].Some? {
        FirstTargetSkipsDraggedTask(Ancestors(candidates[0].value), d, pointerY, hourBlockHeight);
      }
      PlannerDropTargetSkipsDraggedTask(hasDocument, candidates[1..], d, pointerY, hourBlockHeight);
    }
  }

  /** resolvePlannerDropTarget: the for-loop over the candidates with an
      early return. Null candidates are skipped; the first candidate whose
      walk resolves decides; without a document nothing resolves. */
  method ResolvePlannerDropTarget(hasDocument: bool, candidates: seq<Option<Element>>, draggingTaskId: Option<string>, pointerY: int, hourBlockHeight: nat)
    returns (target: Option<DropTarget>)
    ensures !hasDocument ==> target.None?
    ensures hasDocument ==>
              (target.None? <==> forall i :: 0 <= i < |candidates| && candidates[i].Some? ==>
                                   ResolveFromNode(candidates[i].value, draggingTaskId, pointerY, hourBlockHeight).None?)
    ensures target.Some? ==>
              exists i :: 0 <= i < |candidates| && candidates[i].Some?
                && ResolveFromNode(candidates[i].value, draggingTaskId, pointerY, hourBlockHeight) == target
                && forall j :: 0 <= j < i && candidates[j].Some? ==>
                     ResolveFromNode(candidates[j].value, draggingTaskId, pointerY, hourBlockHeight).None?
    ensures target == PlannerDropTarget(hasDocument, candidates, draggingTaskId, pointerY, hourBlockHeight)
  {
    if !hasDocument {
      return None;
    }
    var i := 0;
    while i < |candidates|
      invariant 0 <= i <= |candidates|
      invariant forall j :: 0 <= j < i && candidates[j].Some? ==>
                  ResolveFromNode(candidates[j].value, draggingTaskId, pointerY, hourBlockHeight).None?
      invariant FirstCandidateTarget(candidates[i..], draggingTaskId, pointerY, hourBlockHeight)
                == PlannerDropTarget(hasDocument, candidates, draggingTaskId, pointerY, hourBlockHeight)
    {
      assert candidates[i..][1..] == candidates[i + 1..];
      var candidate := candidates[i];
      if candidate.Some? {
        var t := ResolveDropTargetFromNode(candidate.value, draggingTaskId, pointerY, hourBlockHeight);
        if t.Some? {
          return t;
        }
      }
      i := i + 1;
    }
    return None;
  }
}
