/** The backlog panel's drag session (src/components/planner/PlannerBacklogPanel.tsx).

    The panel keeps the task being dragged (`draggingTaskRef`) and the list
    hover target (`internalHoverTarget`), and reports the drag to the rest of
    the planner through optional preview callbacks (drag preview, day hover,
    calendar preview) and, on release, through one of four mutation
    callbacks. Each callback call is recorded, in order, with its argument;
    what a preview region shows is the argument of the last call it got. */
module BacklogPanel {
  import opened Common
  import opened PlannerTypes
  import opened DropTargets

  datatype PreviewVariant = BacklogVariant | CalendarVariant | TaskBoardVariant

  /** `PlannerDragPreview` */
  datatype DragPreview = DragPreview(task: Task, x: int, y: int, variant: PreviewVariant)

  datatype CalendarPreview = CalendarPreview(task: Task, dayKey: string, startMinutes: int)

  /** One call of a preview callback, with its argument. */
  datatype PreviewCall =
    | DragPreviewChange(dragPreview: Option<DragPreview>)
    | DayHoverChange(dayKey: Option<string>)
    | CalendarPreviewChange(calendarPreview: Option<CalendarPreview>)

  /** One call of a mutation callback, with its arguments. */
  datatype MutationCall =
    | ReorderTask(task: Task, listId: string, targetTaskId: string, position: Position)
    | MoveTask(task: Task, targetListId: string)
    | AssignTaskToSlot(task: Task, dayKey: string, hour: int)
    | AssignTaskToDay(task: Task, dayKey: string)

  /** Which optional callbacks the caller supplied. */
  datatype Callbacks = Callbacks(
    dragPreview: bool, dayHover: bool, calendarPreview: bool,
    assignToDay: bool, assignToSlot: bool)

  /** The fixed surroundings of the panel: `Platform.OS === "web"`, the hour
      row height of the calendar and the supplied callbacks. */
  datatype Env = Env(isWeb: bool, hourBlockHeight: nat, callbacks: Callbacks)

  /** What lies under the pointer at one event: whether a document exists
      and the elements under the pointer, nearest first. */
  datatype PointerScene = PointerScene(hasDocument: bool, candidates: seq<Option<Element>>)

  /** The drag session's state. */
  datatype DragState = DragState(
    draggingTask: Option<Task>,
    hoverTarget: Option<DropTarget>,
    previews: seq<PreviewCall>,
    mutations: seq<MutationCall>)

  // ---------------------------------------------------------------------
  // Optional callbacks (`onX?.(arg)`)

  function DragPreviewCall(cb: Callbacks, p: Option<DragPreview>): (r: seq<PreviewCall>)
    ensures LastCall(r, DragChannel) == if cb.dragPreview then Some(DragPreviewChange(p)) else None
    ensures LastCall(r, DayChannel).None? && LastCall(r, CalendarChannel).None?
  {
    if cb.dragPreview then [DragPreviewChange(p)] else []
  }

  function DayHoverCall(cb: Callbacks, k: Option<string>): (r: seq<PreviewCall>)
    ensures LastCall(r, DayChannel) == if cb.dayHover then Some(DayHoverChange(k)) else None
    ensures LastCall(r, DragChannel).None? && LastCall(r, CalendarChannel).None?
  {
    if cb.dayHover then [DayHoverChange(k)] else []
  }

  function CalendarPreviewCall(cb: Callbacks, c: Option<CalendarPreview>): (r: seq<PreviewCall>)
    ensures LastCall(r, CalendarChannel) == if cb.calendarPreview then Some(CalendarPreviewChange(c)) else None
    ensures LastCall(r, DragChannel).None? && LastCall(r, DayChannel).None?
  {
    if cb.calendarPreview then [CalendarPreviewChange(c)] else []
  }

  predicate CallAllowed(c: PreviewCall, cb: Callbacks)
  {
    match c
    case DragPreviewChange(_) => cb.dragPreview
    case DayHoverChange(_) => cb.dayHover
    case CalendarPreviewChange(_) => cb.calendarPreview
  }

  predicate MutationAllowed(m: MutationCall, cb: Callbacks)
  {
    match m
    case AssignTaskToSlot(_, _, _) => cb.assignToSlot
    case AssignTaskToDay(_, _) => cb.assignToDay
    case _ => true
  }

  /** The session invariant: the list hover is a list or task target, and
      only supplied callbacks were ever called. */
  ghost predicate WellFormed(s: DragState, cb: Callbacks)
  {
    && (s.hoverTarget.Some? ==> IsListHoverTarget(s.hoverTarget.value))
    && (forall c :: c in s.previews ==> CallAllowed(c, cb))
    && (forall m :: m in s.mutations ==> MutationAllowed(m, cb))
  }

  // ---------------------------------------------------------------------
  // What each preview region shows: the argument of its last call

  datatype Channel = DragChannel | DayChannel | CalendarChannel

  function ChannelOf(c: PreviewCall): Channel
  {
    match c
    case DragPreviewChange(_) => DragChannel
    case DayHoverChange(_) => DayChannel
    case CalendarPreviewChange(_) => CalendarChannel
  }

  function LastCall(calls: seq<PreviewCall>, ch: Channel): (r: Option<PreviewCall>)
    ensures r.Some? ==> ChannelOf(r.value) == ch
  {
    if calls == [] then None
    else if ChannelOf(calls[|calls| - 1]) == ch then Some(calls[|calls| - 1])
    else LastCall(calls[..|calls| - 1], ch)
  }

  /** The drag preview currently shown (null before any call). */
  function DragPreviewShown(calls: seq<PreviewCall>): Option<DragPreview>
  {
    match LastCall(calls, DragChannel)
    case Some(DragPreviewChange(p)) => p
    case _ => None
  }

  /** The day currently highlighted. */
  function DayHoverShown(calls: seq<PreviewCall>): Option<string>
  {
    match LastCall(calls, DayChannel)
    case Some(DayHoverChange(k)) => k
    case _ => None
  }

  /** The calendar block preview currently shown. */
  function CalendarPreviewShown(calls: seq<PreviewCall>): Option<CalendarPreview>
  {
    match LastCall(calls, CalendarChannel)
    case Some(CalendarPreviewChange(c)) => c
    case _ => None
  }

  /** A channel's last call in `a + b` is its last call in `b`, if `b` has
      one, else its last call in `a`. */
  lemma {:induction false} LastCallAppend(a: seq<PreviewCall>, b: seq<PreviewCall>)
    ensures forall ch :: LastCall(a + b, ch) == if LastCall(b, ch).Some? then LastCall(b, ch) else LastCall(a, ch)
    decreases |b|
  {
    if b != [] {
      assert (a + b)[..|a + b| - 1] == a + b[..|b| - 1];
      LastCallAppend(a, b[..|b| - 1]);
    } else {
      assert a + b == a;
    }
  }

  /** A channel that was never called shows nothing. */
  lemma {:induction false} LastCallNone(calls: seq<PreviewCall>, ch: Channel)
    requires forall c :: c in calls ==> ChannelOf(c) != ch
    ensures LastCall(calls, ch).None?
    decreases |calls|
  {
    if calls != [] {
      assert calls[|calls| - 1] in calls;
      LastCallNone(calls[..|calls| - 1], ch);
    }
  }

  // ---------------------------------------------------------------------
  // The four handlers, as functions of the state

  /** handleDragStart */
  function StartStep(s: DragState, env: Env, task: Task, x: int, y: int): DragState
  {
    var cb := env.callbacks;
    s.(draggingTask := Some(task),
       previews := s.previews
         + CalendarPreviewCall(cb, None)
         + DragPreviewCall(cb, Some(DragPreview(task, x, y, BacklogVariant))))
  }

  /** The target a move or release resolves: only on the web. */
  function PointerTarget(env: Env, scene: PointerScene, task: Task, y: int): Option<DropTarget>
  {
    if env.isWeb then PlannerDropTarget(scene.hasDocument, scene.candidates, Some(task.id), y, env.hourBlockHeight)
    else None
  }

  /** The preview variant for a day target: task board, daily list, or the
      calendar when the origin is missing. */
  function DayVariant(origin: Option<DayOrigin>): PreviewVariant
  {
    match origin
    case Some(TaskBoard) => TaskBoardVariant
    case Some(Daily) => BacklogVariant
    case None => CalendarVariant
  }

  /** handleDragMove */
  function MoveStep(s: DragState, env: Env, scene: PointerScene, x: int, y: int): DragState
  {
    var cb := env.callbacks;
    match s.draggingTask
    case None => s
    case Some(task) =>
      match PointerTarget(env, scene, task, y)
      case Some(TaskTarget(listId, taskId, position)) =>
        s.(hoverTarget := Some(TaskTarget(listId, taskId, position)),
           previews := s.previews
             + DayHoverCall(cb, None)
             + DragPreviewCall(cb, Some(DragPreview(task, x, y, BacklogVariant))))
      case Some(ListTarget(listId)) =>
        s.(hoverTarget := Some(ListTarget(listId)),
           previews := s.previews
             + DayHoverCall(cb, None)
             + DragPreviewCall(cb, Some(DragPreview(task, x, y, BacklogVariant))))
      case Some(CalendarSlot(dayKey, hour)) =>
        s.(hoverTarget := None,
           previews := s.previews
             + DayHoverCall(cb, Some(dayKey))
             + CalendarPreviewCall(cb, Some(CalendarPreview(task, dayKey, hour * 60)))
             + DragPreviewCall(cb, Some(DragPreview(task, x, y, CalendarVariant))))
      case Some(DayTarget(dayKey, origin)) =>
        var variant := DayVariant(origin);
        s.(hoverTarget := None,
           previews := s.previews
             + DayHoverCall(cb, Some(dayKey))
             + CalendarPreviewCall(cb, if variant == CalendarVariant then Some(CalendarPreview(task, dayKey, 0)) else None)
             + DragPreviewCall(cb, Some(DragPreview(task, x, y, variant))))
      case None =>
        s.(hoverTarget := None,
           previews := s.previews
             + CalendarPreviewCall(cb, None)
             + DragPreviewCall(cb, Some(DragPreview(task, x, y, BacklogVariant)))
             + DayHoverCall(cb, None))
  }

  /** The mutation a release on `target` commits, if any. */
  function Commit(cb: Callbacks, task: Task, target: Option<DropTarget>): seq<MutationCall>
  {
    match target
    case Some(TaskTarget(listId, taskId, position)) => [ReorderTask(task, listId, taskId, position)]
    case Some(ListTarget(listId)) => [MoveTask(task, listId)]
    case Some(CalendarSlot(dayKey, hour)) => if cb.assignToSlot then [AssignTaskToSlot(task, dayKey, hour)] else []
    case Some(DayTarget(dayKey, _)) => if cb.assignToDay then [AssignTaskToDay(task, dayKey)] else []
    case None => []
  }

  /** handleDragRelease: clear everything, then re-resolve at the release
      point and commit. */
  function ReleaseStep(s: DragState, env: Env, scene: PointerScene, x: int, y: int): DragState
  {
    var cb := env.callbacks;
    var cleared := s.(draggingTask := None, hoverTarget := None,
                      previews := s.previews
                        + DragPreviewCall(cb, None)
                        + DayHoverCall(cb, None)
                        + CalendarPreviewCall(cb, None));
    match s.draggingTask
    case None => cleared
    case Some(task) => cleared.(mutations := s.mutations + Commit(cb, task, PointerTarget(env, scene, task, y)))
  }

  /** handleDragCancel */
  function CancelStep(s: DragState, env: Env): DragState
  {
    var cb := env.callbacks;
    s.(draggingTask := None, hoverTarget := None,
       previews := s.previews
         + DragPreviewCall(cb, None)
         + CalendarPreviewCall(cb, None)
         + DayHoverCall(cb, None))
  }

  // ---------------------------------------------------------------------
  // What the handlers promise

  /** Nothing is being dragged and every supplied preview region is clear. */
  predicate Idle(s: DragState)
  {
    && s.draggingTask.None? && s.hoverTarget.None?
    && DragPreviewShown(s.previews).None?
    && DayHoverShown(s.previews).None?
    && CalendarPreviewShown(s.previews).None?
  }

  /** Every handler keeps the session invariant. */
  lemma StepsKeepWellFormed(s: DragState, env: Env, scene: PointerScene, task: Task, x: int, y: int)
    requires WellFormed(s, env.callbacks)
    ensures WellFormed(StartStep(s, env, task, x, y), env.callbacks)
    ensures WellFormed(MoveStep(s, env, scene, x, y), env.callbacks)
    ensures WellFormed(ReleaseStep(s, env, scene, x, y), env.callbacks)
    ensures WellFormed(CancelStep(s, env), env.callbacks)
  {
  }

  /** With no callback of a channel supplied, that channel never shows
      anything. */
  lemma AbsentChannelShowsNothing(s: DragState, cb: Callbacks)
    requires WellFormed(s, cb)
    ensures !cb.dragPreview ==> DragPreviewShown(s.previews).None?
    ensures !cb.dayHover ==> DayHoverShown(s.previews).None?
    ensures !cb.calendarPreview ==> CalendarPreviewShown(s.previews).None?
  {
    if !cb.dragPreview {
      LastCallNone(s.previews, DragChannel);
    }
    if !cb.dayHover {
      LastCallNone(s.previews, DayChannel);
    }
    if !cb.calendarPreview {
      LastCallNone(s.previews, CalendarChannel);
    }
  }

  /** Start records the task, clears the calendar preview and shows a
      backlog drag preview at the pointer; the day highlight is untouched. */
  lemma StartShows(s: DragState, env: Env, task: Task, x: int, y: int)
    requires WellFormed(s, env.callbacks)
    ensures var s' := StartStep(s, env, task, x, y);
            && s'.draggingTask == Some(task)
            && s'.hoverTarget == s.hoverTarget && s'.mutations == s.mutations
            && CalendarPreviewShown(s'.previews).None?
            && DragPreviewShown(s'.previews)
               == (if env.callbacks.dragPreview then Some(DragPreview(task, x, y, BacklogVariant)) else None)
            && DayHoverShown(s'.previews) == DayHoverShown(s.previews)
  {
    var cb := env.callbacks;
    var c := CalendarPreviewCall(cb, None);
    var d := DragPreviewCall(cb, Some(DragPreview(task, x, y, BacklogVariant)));
    AbsentChannelShowsNothing(s, cb);
    LastCallAppend(s.previews + c, d);
    LastCallAppend(s.previews, c);
  }

  /** Hovering a task row or a list sets the list hover to exactly that
      target, clears the day highlight and shows a backlog drag preview; it
      leaves the calendar preview as it was. */
  lemma MoveOverTaskOrList(s: DragState, env: Env, scene: PointerScene, x: int, y: int)
    requires WellFormed(s, env.callbacks) && s.draggingTask.Some?
    requires var t := PointerTarget(env, scene, s.draggingTask.value, y); t.Some? && IsListHoverTarget(t.value)
    ensures var task := s.draggingTask.value;
            var s' := MoveStep(s, env, scene, x, y);
            && s'.hoverTarget == PointerTarget(env, scene, task, y)
            && s'.draggingTask == s.draggingTask && s'.mutations == s.mutations
            && DayHoverShown(s'.previews).None?
            && DragPreviewShown(s'.previews)
               == (if env.callbacks.dragPreview then Some(DragPreview(task, x, y, BacklogVariant)) else DragPreviewShown(s.previews))
            && CalendarPreviewShown(s'.previews) == CalendarPreviewShown(s.previews)
  {
    var cb := env.callbacks;
    var task := s.draggingTask.value;
    var a := DayHoverCall(cb, None);
    var d := DragPreviewCall(cb, Some(DragPreview(task, x, y, BacklogVariant)));
    AbsentChannelShowsNothing(s, cb);
    LastCallAppend(s.previews + a, d);
    LastCallAppend(s.previews, a);
  }

  /** Hovering a calendar slot clears the list hover, highlights its day and
      previews a block starting at hour * 60 minutes, with a calendar drag
      preview; a channel without its callback shows nothing. */
  lemma MoveOverCalendarSlot(s: DragState, env: Env, scene: PointerScene, x: int, y: int, dayKey: string, hour: int)
    requires WellFormed(s, env.callbacks) && s.draggingTask.Some?
    requires PointerTarget(env, scene, s.draggingTask.value, y) == Some(CalendarSlot(dayKey, hour))
    ensures var task := s.draggingTask.value;
            var cb := env.callbacks;
            var s' := MoveStep(s, env, scene, x, y);
            && s'.hoverTarget.None?
            && s'.draggingTask == s.draggingTask && s'.mutations == s.mutations
            && DayHoverShown(s'.previews) == (if cb.dayHover then Some(dayKey) else None)
            && CalendarPreviewShown(s'.previews)
               == (if cb.calendarPreview then Some(CalendarPreview(task, dayKey, hour * 60)) else None)
            && DragPreviewShown(s'.previews)
               == (if cb.dragPreview then Some(DragPreview(task, x, y, CalendarVariant)) else None)
  {
    var cb := env.callbacks;
    var task := s.draggingTask.value;
    var a := DayHoverCall(cb, Some(dayKey));
    var c := CalendarPreviewCall(cb, Some(CalendarPreview(task, dayKey, hour * 60)));
    var d := DragPreviewCall(cb, Some(DragPreview(task, x, y, CalendarVariant)));
    AbsentChannelShowsNothing(s, cb);
    LastCallAppend(s.previews + a + c, d);
    LastCallAppend(s.previews + a, c);
    LastCallAppend(s.previews, a);
  }

  /** Hovering a day column clears the list hover and highlights the day;
      the variant follows the origin, and only the calendar variant previews
      a block, at minute 0; a channel without its callback shows nothing. */
  lemma MoveOverDay(s: DragState, env: Env, scene: PointerScene, x: int, y: int, dayKey: string, origin: Option<DayOrigin>)
    requires WellFormed(s, env.callbacks) && s.draggingTask.Some?
    requires PointerTarget(env, scene, s.draggingTask.value, y) == Some(DayTarget(dayKey, origin))
    ensures var task := s.draggingTask.value;
            var cb := env.callbacks;
            var s' := MoveStep(s, env, scene, x, y);
            && s'.hoverTarget.None?
            && s'.draggingTask == s.draggingTask && s'.mutations == s.mutations
            && DayHoverShown(s'.previews) == (if cb.dayHover then Some(dayKey) else None)
            && (cb.dragPreview <==> DragPreviewShown(s'.previews).Some?)
            && (cb.dragPreview ==>
                  var variant := DragPreviewShown(s'.previews).value.variant;
                  && DragPreviewShown(s'.previews).value == DragPreview(task, x, y, variant)
                  && (variant == TaskBoardVariant <==> origin == Some(TaskBoard))
                  && (variant == BacklogVariant <==> origin == Some(Daily))
                  && (variant == CalendarVariant <==> origin.None?))
            && CalendarPreviewShown(s'.previews)
               == (if cb.calendarPreview && origin.None? then Some(CalendarPreview(task, dayKey, 0)) else None)
  {
    var cb := env.callbacks;
    var task := s.draggingTask.value;
    var v := DayVariant(origin);
    var a := DayHoverCall(cb, Some(dayKey));
    var c := CalendarPreviewCall(cb, if v == CalendarVariant then Some(CalendarPreview(task, dayKey, 0)) else None);
    var d := DragPreviewCall(cb, Some(DragPreview(task, x, y, v)));
    AbsentChannelShowsNothing(s, cb);
    LastCallAppend(s.previews + a + c, d);
    LastCallAppend(s.previews + a, c);
    LastCallAppend(s.previews, a);
  }

  /** Without a target (or off the web) the calendar preview, the day
      highlight and the list hover are all cleared, and the drag preview
      follows the pointer as a backlog preview. */
  lemma MoveOverNothing(s: DragState, env: Env, scene: PointerScene, x: int, y: int)
    requires WellFormed(s, env.callbacks) && s.draggingTask.Some?
    requires PointerTarget(env, scene, s.draggingTask.value, y).None?
    ensures var task := s.draggingTask.value;
            var s' := MoveStep(s, env, scene, x, y);
            && s'.hoverTarget.None?
            && DayHoverShown(s'.previews).None?
            && CalendarPreviewShown(s'.previews).None?
            && DragPreviewShown(s'.previews)
               == (if env.callbacks.dragPreview then Some(DragPreview(task, x, y, BacklogVariant)) else None)
  {
    var cb := env.callbacks;
    var task := s.draggingTask.value;
    var c := CalendarPreviewCall(cb, None);
    var d := DragPreviewCall(cb, Some(DragPreview(task, x, y, BacklogVariant)));
    var a := DayHoverCall(cb, None);
    AbsentChannelShowsNothing(s, cb);
    LastCallAppend(s.previews + c + d, a);
    LastCallAppend(s.previews + c, d);
    LastCallAppend(s.previews, c);
  }

  /** Off the web a move never resolves a target, whatever is under the
      pointer. */
  lemma OffWebNoTarget(env: Env, scene: PointerScene, task: Task, y: int)
    requires !env.isWeb
    ensures PointerTarget(env, scene, task, y).None?
  {
  }

  /** Release ends the session with every preview region clear and commits
      at most one mutation: reorder on a task, move on a list, and slot or
      day assignment only when that callback was supplied. */
  lemma ReleaseCommitsAtMostOne(s: DragState, env: Env, scene: PointerScene, x: int, y: int)
    requires WellFormed(s, env.callbacks)
    ensures var s' := ReleaseStep(s, env, scene, x, y);
            && Idle(s')
            && |s'.mutations| <= |s.mutations| + 1
            && s'.mutations[..|s.mutations|] == s.mutations
            && (s.draggingTask.None? ==> s'.mutations == s.mutations)
            && (s.draggingTask.Some? ==>
                  var task := s.draggingTask.value;
                  var t := PointerTarget(env, scene, task, y);
                  && (t.Some? && t.value.TaskTarget? ==>
                        s'.mutations == s.mutations + [ReorderTask(task, t.value.listId, t.value.taskId, t.value.position)])
                  && (t.Some? && t.value.ListTarget? ==>
                        s'.mutations == s.mutations + [MoveTask(task, t.value.listId)])
                  && (t.Some? && t.value.CalendarSlot? ==>
                        s'.mutations == s.mutations + (if env.callbacks.assignToSlot then [AssignTaskToSlot(task, t.value.dayKey, t.value.hour)] else []))
                  && (t.Some? && t.value.DayTarget? ==>
                        s'.mutations == s.mutations + (if env.callbacks.assignToDay then [AssignTaskToDay(task, t.value.dayKey)] else []))
                  && (t.None? ==> s'.mutations == s.mutations))
  {
    var cb := env.callbacks;
    var d := DragPreviewCall(cb, None);
    var a := DayHoverCall(cb, None);
    var c := CalendarPreviewCall(cb, None);
    AbsentChannelShowsNothing(s, cb);
    LastCallAppend(s.previews + d + a, c);
    LastCallAppend(s.previews + d, a);
    LastCallAppend(s.previews, d);
  }

  /** Cancel ends the session with every preview region clear and commits
      nothing. */
  lemma CancelClears(s: DragState, env: Env)
    requires WellFormed(s, env.callbacks)
    ensures var s' := CancelStep(s, env);
            Idle(s') && s'.mutations == s.mutations
  {
    var cb := env.callbacks;
    var d := DragPreviewCall(cb, None);
    var c := CalendarPreviewCall(cb, None);
    var a := DayHoverCall(cb, None);
    AbsentChannelShowsNothing(s, cb);
    LastCallAppend(s.previews + d + c, a);
    LastCallAppend(s.previews + d, c);
    LastCallAppend(s.previews, d);
  }

  /** Cancelling twice looks the same as cancelling once, and the cancel
      that follows every release (the gesture's finalize) changes nothing
      visible and commits nothing. */
  lemma CancelIsHarmlessWhenIdle(s: DragState, env: Env, scene: PointerScene, x: int, y: int)
    requires WellFormed(s, env.callbacks)
    ensures var once := CancelStep(s, env);
            var twice := CancelStep(once, env);
            Idle(twice) && twice.mutations == once.mutations
    ensures var released := ReleaseStep(s, env, scene, x, y);
            var finalized := CancelStep(released, env);
            Idle(finalized) && finalized.mutations == released.mutations
  {
    StepsKeepWellFormed(s, env, scene, Task("", None, "", None, None, None, None), x, y);
    CancelClears(s, env);
    CancelClears(CancelStep(s, env), env);
    ReleaseCommitsAtMostOne(s, env, scene, x, y);
    CancelClears(ReleaseStep(s, env, scene, x, y), env);
  }

  /** Once the session has ended, a late move does nothing at all. */
  lemma MoveAfterEndIsNoOp(s: DragState, env: Env, scene: PointerScene, x: int, y: int, scene2: PointerScene, x2: int, y2: int)
    ensures var c := CancelStep(s, env);
            MoveStep(c, env, scene2, x2, y2) == c
    ensures var r := ReleaseStep(s, env, scene, x, y);
            MoveStep(r, env, scene2, x2, y2) == r
  {
  }

  /** The three preview regions are not mutually exclusive: after hovering
      a calendar slot and then a list, the calendar block preview is still
      shown while the list is highlighted. */
  lemma CalendarPreviewOutlivesListHover(task: Task, dayKey: string, listId: string, env: Env)
    requires Truthy(Some(dayKey)) && Truthy(Some(listId))
    requires env.isWeb && env.callbacks.calendarPreview && env.callbacks.dayHover && env.callbacks.dragPreview
    ensures var slot := Element(Some("calendarSlot"), None, None, Some(dayKey), Some("9"), "", Rect(0, 10), None);
            var list := Element(Some("listEntry"), Some(listId), None, None, None, "", Rect(0, 10), None);
            var s0 := StartStep(DragState(None, None, [], []), env, task, 0, 0);
            var s1 := MoveStep(s0, env, PointerScene(true, [Some(slot)]), 0, 0);
            var s2 := MoveStep(s1, env, PointerScene(true, [Some(list)]), 0, 0);
            && s2.hoverTarget == Some(ListTarget(listId))
            && CalendarPreviewShown(s2.previews) == Some(CalendarPreview(task, dayKey, 540))
  {
    var slot := Element(Some("calendarSlot"), None, None, Some(dayKey), Some("9"), "", Rect(0, 10), None);
    var list := Element(Some("listEntry"), Some(listId), None, None, None, "", Rect(0, 10), None);
    var s0 := StartStep(DragState(None, None, [], []), env, task, 0, 0);
    assert WellFormed(DragState(None, None, [], []), env.callbacks);
    StepsKeepWellFormed(DragState(None, None, [], []), env, PointerScene(true, []), task, 0, 0);
    assert DigitsValue("9") == 9 by {
      assert "9"[..0] == "";
    }
    assert Ancestors(slot) == [slot];
    assert PointerTarget(env, PointerScene(true, [Some(slot)]), task, 0) == Some(CalendarSlot(dayKey, 9));
    MoveOverCalendarSlot(s0, env, PointerScene(true, [Some(slot)]), 0, 0, dayKey, 9);
    var s1 := MoveStep(s0, env, PointerScene(true, [Some(slot)]), 0, 0);
    StepsKeepWellFormed(s0, env, PointerScene(true, [Some(slot)]), task, 0, 0);
    assert Ancestors(list) == [list];
    assert PointerTarget(env, PointerScene(true, [Some(list)]), task, 0) == Some(ListTarget(listId));
    MoveOverTaskOrList(s1, env, PointerScene(true, [Some(list)]), 0, 0);
  }

  // ---------------------------------------------------------------------
  // The panel's other state: list expansion and the visible lists

  /** `lists.find((list) => list.id === activeListId) ?? lists[0]`: the
      first list with the selected id, else the first list. */
  function ActiveList(lists: seq<ListRow>, activeListId: Option<string>): (r: Option<ListRow>)
    ensures r.Some? ==> r.value in lists
    ensures r.None? <==> lists == []
    ensures activeListId.Some? && FindList(lists, activeListId.value).Some? ==>
              r == FindList(lists, activeListId.value)
    ensures lists != [] && (activeListId.None? || forall l :: l in lists ==> l.id != activeListId.value) ==>
              r == Some(lists[0])
  {
    var found := if activeListId.Some? then FindList(lists, activeListId.value) else None;
    if found.Some? then found
    else if lists == [] then None
    else Some(lists[0])
  }

  /** When some list carries the selected id, the active list is the
      earliest of them. */
  lemma ActiveListIsFirstMatch(lists: seq<ListRow>, activeListId: string)
    requires exists l :: l in lists && l.id == activeListId
    ensures exists i :: 0 <= i < |lists| && ActiveList(lists, Some(activeListId)) == Some(lists[i])
                        && lists[i].id == activeListId
                        && forall j :: 0 <= j < i ==> lists[j].id != activeListId
  {
    FindListFirstMatch(lists, activeListId);
  }

  /** visibleLists: every list when "view all" is on, else only the active
      list. */
  function VisibleLists(lists: seq<ListRow>, activeListId: Option<string>, showAllLists: bool): (r: seq<ListRow>)
    ensures showAllLists ==> r == lists
    ensures !showAllLists && lists == [] ==> r == []
    ensures !showAllLists && lists != [] ==> r == [ActiveList(lists, activeListId).value]
    ensures forall l :: l in r ==> l in lists
  {
    if showAllLists then lists
    else match ActiveList(lists, activeListId)
      case Some(l) => [l]
      case None => []
  }

  /** `expandedLists[id] ?? false` */
  function ExpandedFlag(expanded: map<string, bool>, listId: string): bool
  {
    if listId in expanded then expanded[listId] else false
  }

  /** Whether a list's tasks are shown: always when one list is visible,
      else by its expansion flag, which is off until it was set. */
  function IsExpanded(showAllLists: bool, expanded: map<string, bool>, listId: string): (r: bool)
    ensures !showAllLists ==> r
    ensures showAllLists ==> (r <==> listId in expanded && expanded[listId])
  {
    if showAllLists then ExpandedFlag(expanded, listId) else true
  }

  // ---------------------------------------------------------------------
  // The panel object

  class PlannerBacklogPanel {
    const env: Env
    var draggingTask: Option<Task>
    var hoverTarget: Option<DropTarget>
    var previews: seq<PreviewCall>
    var mutations: seq<MutationCall>
    var showAllLists: bool
    var expandedLists: map<string, bool>
    /** Arguments of the calls to `onSelectList`, in order. */
    var selections: seq<string>

    function State(): DragState
      reads this
    {
      DragState(draggingTask, hoverTarget, previews, mutations)
    }

    ghost predicate Valid()
      reads this
    {
      WellFormed(State(), env.callbacks)
    }

    constructor(env: Env)
      ensures Valid() && this.env == env
      ensures State() == DragState(None, None, [], [])
      ensures !showAllLists && expandedLists == map[] && selections == []
    {
      this.env := env;
      draggingTask, hoverTarget, previews, mutations := None, None, [], [];
      showAllLists, expandedLists, selections := false, map[], [];
    }

    method HandleDragStart(task: Task, x: int, y: int)
      requires Valid()
      modifies this`draggingTask, this`previews
      ensures Valid()
      ensures State() == StartStep(old(State()), env, task, x, y)
    {
      StepsKeepWellFormed(State(), env, PointerScene(false, []), task, x, y);
      var cb := env.callbacks;
      draggingTask := Some(task);
      previews := previews + CalendarPreviewCall(cb, None);
      previews := previews + DragPreviewCall(cb, Some(DragPreview(task, x, y, BacklogVariant)));
    }

    method HandleDragMove(scene: PointerScene, x: int, y: int)
      requires Valid()
      modifies this`hoverTarget, this`previews
      ensures Valid()
      ensures State() == MoveStep(old(State()), env, scene, x, y)
    {
      StepsKeepWellFormed(State(), env, scene, Task("", None, "", None, None, None, None), x, y);
      var cb := env.callbacks;
      if draggingTask.None? {
        return;
      }
      var task := draggingTask.value;
      var variant := BacklogVariant;
      if env.isWeb {
        var target := ResolvePlannerDropTarget(scene.hasDocument, scene.candidates, Some(task.id), y, env.hourBlockHeight);
        if target.Some? && target.value.TaskTarget? {
          hoverTarget := Some(TaskTarget(target.value.listId, target.value.taskId, target.value.position));
          previews := previews + DayHoverCall(cb, None);
          previews := previews + DragPreviewCall(cb, Some(DragPreview(task, x, y, variant)));
          return;
        }
        if target.Some? && target.value.ListTarget? {
          hoverTarget := Some(ListTarget(target.value.listId));
          previews := previews + DayHoverCall(cb, None);
          previews := previews + DragPreviewCall(cb, Some(DragPreview(task, x, y, variant)));
          return;
        }
        if target.Some? && target.value.CalendarSlot? {
          variant := CalendarVariant;
          hoverTarget := None;
          previews := previews + DayHoverCall(cb, Some(target.value.dayKey));
          previews := previews + CalendarPreviewCall(cb, Some(CalendarPreview(task, target.value.dayKey, target.value.hour * 60)));
          previews := previews + DragPreviewCall(cb, Some(DragPreview(task, x, y, variant)));
          return;
        }
        if target.Some? && target.value.DayTarget? {
          variant := DayVariant(target.value.origin);
          hoverTarget := None;
          previews := previews + DayHoverCall(cb, Some(target.value.dayKey));
          if variant == CalendarVariant {
            previews := previews + CalendarPreviewCall(cb, Some(CalendarPreview(task, target.value.dayKey, 0)));
          } else {
            previews := previews + CalendarPreviewCall(cb, None);
          }
          previews := previews + DragPreviewCall(cb, Some(DragPreview(task, x, y, variant)));
          return;
        }
      }
      previews := previews + CalendarPreviewCall(cb, None);
      previews := previews + DragPreviewCall(cb, Some(DragPreview(task, x, y, variant)));
      previews := previews + DayHoverCall(cb, None);
      hoverTarget := None;
    }

    method HandleDragRelease(scene: PointerScene, x: int, y: int)
      requires Valid()
      modifies this`draggingTask, this`hoverTarget, this`previews, this`mutations
      ensures Valid()
      ensures State() == ReleaseStep(old(State()), env, scene, x, y)
    {
      StepsKeepWellFormed(State(), env, scene, Task("", None, "", None, None, None, None), x, y);
      var cb := env.callbacks;
      var task := draggingTask;
      draggingTask := None;
      previews := previews + DragPreviewCall(cb, None);
      hoverTarget := None;
      previews := previews + DayHoverCall(cb, None);
      previews := previews + CalendarPreviewCall(cb, None);
      if task.None? {
        return;
      }
      if env.isWeb {
        var target := ResolvePlannerDropTarget(scene.hasDocument, scene.candidates, Some(task.value.id), y, env.hourBlockHeight);
        if target.Some? && target.value.TaskTarget? {
          mutations := mutations + [ReorderTask(task.value, target.value.listId, target.value.taskId, target.value.position)];
          return;
        }
        if target.Some? && target.value.ListTarget? {
          mutations := mutations + [MoveTask(task.value, target.value.listId)];
          return;
        }
        if target.Some? && target.value.CalendarSlot? && cb.assignToSlot {
          mutations := mutations + [AssignTaskToSlot(task.value, target.value.dayKey, target.value.hour)];
          return;
        }
        if target.Some? && target.value.DayTarget? && cb.assignToDay {
          mutations := mutations + [AssignTaskToDay(task.value, target.value.dayKey)];
          return;
        }
      }
    }

    method HandleDragCancel()
      requires Valid()
      modifies this`draggingTask, this`hoverTarget, this`previews
      ensures Valid()
      ensures State() == CancelStep(old(State()), env)
    {
      StepsKeepWellFormed(State(), env, PointerScene(false, []), Task("", None, "", None, None, None, None), 0, 0);
      var cb := env.callbacks;
      draggingTask := None;
      previews := previews + DragPreviewCall(cb, None);
      hoverTarget := None;
      previews := previews + CalendarPreviewCall(cb, None);
      previews := previews + DayHoverCall(cb, None);
    }

    /** handleToggleExpand: flip one list's flag, leave the others alone. */
    method HandleToggleExpand(listId: string)
      modifies this`expandedLists
      ensures listId in expandedLists && expandedLists[listId] == !ExpandedFlag(old(expandedLists), listId)
      ensures forall k :: k != listId ==> (k in expandedLists <==> k in old(expandedLists))
      ensures forall k :: k != listId && k in old(expandedLists) ==> expandedLists[k] == old(expandedLists)[k]
    {
      expandedLists := expandedLists[listId := !ExpandedFlag(expandedLists, listId)];
    }

    /** The "View All Lists" toggle. */
    method ToggleShowAllLists()
      modifies this`showAllLists
      ensures showAllLists == !old(showAllLists)
    {
      showAllLists := !showAllLists;
    }

    /** handleSelectList: leave "view all" and report the selection. */
    method HandleSelectList(listId: string)
      modifies this`showAllLists, this`selections
      ensures !showAllLists
      ensures selections == old(selections) + [listId]
    {
      if showAllLists {
        showAllLists := false;
      }
      selections := selections + [listId];
    }

    /** A press on a visible list's header: toggles expansion under "view
        all", else selects the list. */
    method PressListHeader(listId: string)
      modifies this`showAllLists, this`selections, this`expandedLists
      ensures old(showAllLists) ==>
                showAllLists && selections == old(selections)
                && expandedLists == old(expandedLists)[listId := !ExpandedFlag(old(expandedLists), listId)]
      ensures !old(showAllLists) ==>
                !showAllLists && selections == old(selections) + [listId] && expandedLists == old(expandedLists)
    {
      if showAllLists {
        HandleToggleExpand(listId);
      } else {
        HandleSelectList(listId);
      }
    }
  }

  /** One draggable task row: its pan gesture drives the panel's drag
      handlers, and `shouldSkipNextPress` swallows the press that the
      platform delivers right after a drag. */
  class DraggableTaskRow {
    const task: Task
    const panel: PlannerBacklogPanel
    var shouldSkipNextPress: bool
    /** A reset of the flag queued by the finalize callback for the next
        animation frame. */
    var resetQueued: bool
    /** Arguments of the calls to `onOpenTask`, in order. */
    var openedTasks: seq<Task>

    constructor(task: Task, panel: PlannerBacklogPanel)
      ensures this.task == task && this.panel == panel
      ensures !shouldSkipNextPress && !resetQueued && openedTasks == []
    {
      this.task := task;
      this.panel := panel;
      shouldSkipNextPress, resetQueued, openedTasks := false, false, [];
    }

    /** `onStart`: arm the skip flag, then start the drag. */
    method OnGestureStart(x: int, y: int)
      requires panel.Valid()
      modifies this`shouldSkipNextPress, panel
      ensures panel.Valid() && shouldSkipNextPress
      ensures panel.State() == StartStep(old(panel.State()), panel.env, task, x, y)
      ensures panel.showAllLists == old(panel.showAllLists) && panel.expandedLists == old(panel.expandedLists)
      ensures panel.selections == old(panel.selections)
    {
      shouldSkipNextPress := true;
      panel.HandleDragStart(task, x, y);
    }

    /** `onFinalize`: queue the reset of the skip flag and cancel the drag. */
    method OnGestureFinalize()
      requires panel.Valid()
      modifies this`resetQueued, panel
      ensures panel.Valid() && resetQueued && shouldSkipNextPress == old(shouldSkipNextPress)
      ensures panel.State() == CancelStep(old(panel.State()), panel.env)
      ensures panel.showAllLists == old(panel.showAllLists) && panel.expandedLists == old(panel.expandedLists)
      ensures panel.selections == old(panel.selections)
    {
      resetQueued := true;
      panel.HandleDragCancel();
    }

    /** The queued reset runs. */
    method RunQueuedReset()
      modifies this`shouldSkipNextPress, this`resetQueued
      ensures !resetQueued
      ensures shouldSkipNextPress == (old(shouldSkipNextPress) && !old(resetQueued))
    {
      if resetQueued {
        shouldSkipNextPress := false;
        resetQueued := false;
      }
    }

    /** handleTaskPress: the first press after a drag only disarms the flag;
        any other press opens the task. */
    method HandleTaskPress()
      modifies this`shouldSkipNextPress, this`openedTasks
      ensures !shouldSkipNextPress
      ensures old(shouldSkipNextPress) ==> openedTasks == old(openedTasks)
      ensures !old(shouldSkipNextPress) ==> openedTasks == old(openedTasks) + [task]
    {
      if shouldSkipNextPress {
        shouldSkipNextPress := false;
        return;
      }
      openedTasks := openedTasks + [task];
    }
  }
}
