# Planner drag-and-drop and list sharing, modelled in Dafny

This project models the core of a planner app built with React Native and
Supabase. It has one Dafny module per source file:

- **DropTargets** (`drop_targets.dfy`): the drop-target resolver. It walks
  from the element under the pointer up through its ancestors. It reads
  the `data-drag-target` tag of each element, or a backlog list's DOM id.
  It yields a task row, a list, a day column or a one-hour calendar slot,
  and it skips the task being dragged.
- **BacklogPanel** (`backlog_panel.dfy`): the backlog panel's drag session.
  - Start, move, release and cancel are modelled as state steps over a log
    of preview-callback calls and mutation-callback calls.
  - The class `PlannerBacklogPanel` runs those steps in place.
  - The class `DraggableTaskRow` models the press-after-drag guard.
  - It also models the list expansion and "view all" toggles.
- **Schedule** (`schedule.dfy`): the schedule state of a task. It is
  unscheduled, date-only or timed.
- **TaskBoard** (`task_board.dfy`): on the multi-day task board:
  - the day index;
  - the visible day range reported from the list's viewable items;
  - the duration badge, formatted as `h:mm`.
- **DeleteListModal** (`delete_list.dfy`): the delete-list dialog. It offers
  three options, availability rules for each, and a confirm guard.
- **ListSettings** (`list_settings.dfy`): the list settings dialog. It has
  details and sharing tabs, an invite, member removal, save and delete.
- **AppSettings** (`app_settings.dfy`): the app settings header. It
  computes the display name, the header label and the avatar initials,
  and guards sign-out against a second press.
- **ListMembers** (`list_members.dfy`): the member list of a shared list.
  The owner comes first, then the non-revoked shares, with duplicates
  removed.
- **AssigneeProfiles** (`assignee_profiles.dfy`): assignee profiles. They
  are seeded from task rows, merged across sources and completed with
  fetched display names.
- **ListsApi** (`lists_api.dfy`): the merge of owned and shared lists. It
  removes duplicate ids and sorts by `sort_index`, then by name.
- **SharesApi** (`shares_api.dfy`): share fetching and the filter for
  pending invites.
- **Notifications** (`notifications.dfy`): the notification filter and the
  unread count.
- **TasksApi** (`tasks_api.dfy`): the task-id check applied before an
  upsert, and the choice of the latest history entry.

Four modules are shared. **Common** holds JavaScript's `??`, truthiness,
`trim`, ASCII case mapping and `String(n)`. **Sorting** holds an insertion
sort proved against a total preorder. **Dedupe** holds keep-first
de-duplication by key. **PlannerTypes** holds the shared row types.

Supabase queries become parameters. A query's rows are passed in as
`Option<seq<…>>`, with `None` for `data: null`. The DOM under the pointer
is also a parameter. It is an `Element` datatype whose `parent` field is
the ancestor chain, and `elementsFromPoint` is a candidate list.
Callbacks the components receive are recorded as logs of calls.

Two behaviours of the drag handling are worth knowing:

- **Previews can overlap.** Hovering a task row or a list clears the day
  highlight but leaves an earlier calendar block preview in place, so the
  list hover and the calendar preview can be shown together.
  `BacklogPanel.CalendarPreviewOutlivesListHover` shows this.
- **A calendar slot highlights its day.** Over a calendar slot the list
  hover is cleared and the slot's day stays highlighted, next to the block
  preview. `BacklogPanel.MoveOverCalendarSlot` shows this.

## Model

| member | source | states |
|---|---|---|
| Common.Coalesce | src/features/planner/hooks/useListMembers.ts:52 | `a ?? b` is `a` when present, else `b` |
| Common.TrimStart | src/features/planner/components/modals/PlannerListSettingsModal.tsx:50 | the result is no longer than the input and does not start with white space |
| Common.TrimStartCutsSpace | src/features/planner/components/modals/PlannerListSettingsModal.tsx:50 | the result is a suffix of the input, and what it cuts is all white space |
| Common.TrimEnd | src/features/planner/components/modals/PlannerListSettingsModal.tsx:50 | the result is no longer than the input and does not end with white space |
| Common.TrimEndCutsSpace | src/features/planner/components/modals/PlannerListSettingsModal.tsx:50 | the result is a prefix of the input, and what it cuts is all white space |
| Common.Trim | src/features/planner/components/modals/PlannerListSettingsModal.tsx:50-51 | `trim()` neither starts nor ends with white space |
| Common.TrimCutsOnlySpace | src/features/planner/components/modals/PlannerListSettingsModal.tsx:50-51 | `trim()` is a slice of the input, and everything cut on either side is white space |
| Common.BlankIffAllSpace | src/features/planner/components/modals/PlannerListSettingsModal.tsx:196-198 | `!s.trim()` holds exactly when every character of `s` is white space |
| Common.LowerChar | src/data/remote/sharesApi.ts:94 | maps `A`-`Z` to `a`-`z` and leaves every other character alone |
| Common.UpperChar | src/components/planner/PlannerModals.tsx:202 | maps `a`-`z` to `A`-`Z` and leaves every other character alone |
| Common.Lower | src/data/remote/sharesApi.ts:94 | keeps the length and lowers each character |
| Common.LowerIdempotent | src/data/remote/sharesApi.ts:107 | lowering twice is lowering once |
| Common.DigitChar | src/components/planner/PlannerTaskBoard.tsx:143 | a digit below ten becomes its decimal character |
| Common.NatToString | src/components/planner/PlannerTaskBoard.tsx:143 | `String(n)` is a non-empty digit string without a leading zero |
| Common.IntToString | src/components/planner/PlannerTaskBoard.tsx:143 | `String(n)` is non-empty and starts with a minus sign exactly when `n` is negative |
| Common.DigitsValueOfNatToString | src/components/planner/PlannerTaskBoard.tsx:143 | reading back the digits of `String(n)` gives `n` |
| Sorting.InsertSpec | src/data/remote/listsApi.ts:70-75 | inserting into a sorted sequence keeps it sorted and adds exactly that element |
| Sorting.SortBySpec | src/data/remote/listsApi.ts:70-75 | the sort returns a sorted permutation of its input under any total preorder |
| Sorting.StringLeTotal | src/features/planner/hooks/useAssigneeProfiles.ts:49 | any two strings are comparable |
| Sorting.StringLeTransitive | src/features/planner/hooks/useAssigneeProfiles.ts:49 | the string order is transitive |
| Sorting.StringLeAntisymmetric | src/features/planner/hooks/useAssigneeProfiles.ts:49 | two strings ordered both ways are equal |
| Sorting.StringLeIsTotalPreorder | src/features/planner/hooks/useAssigneeProfiles.ts:49 | the string order is a total preorder |
| Sorting.PermutationKeepsDistinct | src/features/planner/hooks/useAssigneeProfiles.ts:46-49 | sorting distinct ids leaves them distinct |
| Dedupe.KeySet | src/data/remote/listsApi.ts:61-67 | the keys present are exactly those of some element |
| Dedupe.FirstWithKeyAppend | src/data/remote/listsApi.ts:60-67 | the first element with a key in `a + b` comes from `a` if `a` has one |
| Dedupe.DedupeByUniqueKeys | src/data/remote/listsApi.ts:62-67 | every kept element has a key, and no two kept elements share one |
| Dedupe.DedupeByKeySet | src/data/remote/listsApi.ts:62-67 | de-duplication loses no key |
| Dedupe.DedupeByKeepsFirst | src/data/remote/listsApi.ts:64 | each kept element is the first input element with its key |
| Dedupe.DedupeByIsSubsequence | src/data/remote/listsApi.ts:62 | the result is a subsequence of the input, in the input's order |
| Dedupe.DedupeByKeepsHead | src/features/planner/hooks/useListMembers.ts:61-69 | a keyed head element is always kept first |
| Dedupe.DedupeLoop | src/data/remote/listsApi.ts:61-67 | the loop with a `seen` set computes the keep-first de-duplication |
| DropTargets.Ancestors | src/components/planner/drag/dropTargets.ts:76 | the walk starts at the node itself |
| DropTargets.ParseHour | src/components/planner/drag/dropTargets.ts:56-57 | `Number(hour)` of a digit string is its value, and anything other than an optionally signed digit string is NaN |
| DropTargets.ParseHourOfIntToString | src/components/planner/drag/dropTargets.ts:56 | an hour written with `String(h)` reads back as `h` |
| DropTargets.SlotHeight | src/components/planner/drag/dropTargets.ts:66 | the slot height is positive, and it is the hour-block height when that is positive |
| DropTargets.HourAt | src/components/planner/drag/dropTargets.ts:66-67 | the hour is clamped to 0..23 and is the floor of y over the slot height inside the day |
| DropTargets.TagTarget | src/components/planner/drag/dropTargets.ts:34-69 | the target each `data-drag-target` tag yields, including the required attributes, the dragged-task skip, the before/after midpoint and the NaN hour |
| DropTargets.ListIdFromDomId | src/components/planner/drag/dropTargets.ts:81-90 | a list id is found only under one of the two backlog prefixes |
| DropTargets.ListIdFromDomIdRoundTrip | src/components/planner/drag/dropTargets.ts:3-4 | prefixing a list id and parsing it back gives the id |
| DropTargets.ListIdFromDomIdOnlyPrefixed | src/components/planner/drag/dropTargets.ts:81-90 | every parsed id came from a prefixed DOM id |
| DropTargets.NodeTarget | src/components/planner/drag/dropTargets.ts:34-75 | a node's tag takes precedence over its DOM id |
| DropTargets.NodeTargetSkipsDraggedTask | src/components/planner/drag/dropTargets.ts:37 | no node resolves to the task being dragged |
| DropTargets.FirstTargetNone | src/components/planner/drag/dropTargets.ts:31-78 | the walk finds nothing exactly when no ancestor yields a target |
| DropTargets.FirstTargetIsInnermost | src/components/planner/drag/dropTargets.ts:31-78 | the innermost ancestor with a target wins |
| DropTargets.FirstTargetFromSomeNode | src/components/planner/drag/dropTargets.ts:31-78 | a found target comes from some ancestor, and every ancestor below it yields nothing |
| DropTargets.FirstTargetSkipsDraggedTask | src/components/planner/drag/dropTargets.ts:37 | the walk never yields the dragged task |
| DropTargets.OwnRowFallsThroughToList | src/components/planner/drag/dropTargets.ts:37-46 | over its own row, the dragged task resolves to the enclosing list |
| DropTargets.ResolveDropTargetFromNode | src/components/planner/drag/dropTargets.ts:30-79 | the parent-walking loop computes the innermost target |
| DropTargets.PlannerDropTargetSkipsDraggedTask | src/components/planner/drag/dropTargets.ts:14-28 | the resolver never yields the dragged task |
| DropTargets.ResolvePlannerDropTarget | src/components/planner/drag/dropTargets.ts:14-28 | without a document there is no target; otherwise the first candidate that resolves wins |
| Schedule.GetTaskScheduleState | src/domain/tasks/schedule.ts:5-13 | timed iff a planned start or end is set; date-only iff not timed and a due date is set; unscheduled otherwise |
| Schedule.PlannedEndAloneIsTimed | src/domain/tasks/schedule.ts:6-8 | a planned end alone makes a task timed |
| Schedule.OnlyTimeFieldsRead | src/domain/tasks/schedule.ts:5 | only the three date fields decide the state |
| Schedule.EmptyStringIsUnset | src/domain/tasks/schedule.ts:6-11 | an empty string counts as an unset field |
| BacklogPanel.DragPreviewCall | src/components/planner/PlannerBacklogPanel.tsx:99-110 | `onDragPreviewChange?.(p)` calls only the drag channel, and only when the callback was supplied |
| BacklogPanel.DayHoverCall | src/components/planner/PlannerBacklogPanel.tsx:111-121 | `onDayHoverChange?.(k)` calls only the day channel, and only when the callback was supplied |
| BacklogPanel.CalendarPreviewCall | src/components/planner/PlannerBacklogPanel.tsx:111-121 | `onCalendarPreviewChange?.(c)` calls only the calendar channel, and only when the callback was supplied |
| BacklogPanel.LastCall | src/components/planner/PlannerBacklogPanel.tsx:92-147 | the last call found belongs to the channel asked for |
| BacklogPanel.LastCallAppend | src/components/planner/PlannerBacklogPanel.tsx:92-147 | later calls on a channel override earlier ones |
| BacklogPanel.StepsKeepWellFormed | src/components/planner/PlannerBacklogPanel.tsx:83-187 | start, move, release and cancel keep the session invariant: the list hover is a list or task target, and no absent callback is called |
| BacklogPanel.AbsentChannelShowsNothing | src/components/planner/PlannerBacklogPanel.tsx:83-187 | a preview region whose callback is absent never shows anything |
| BacklogPanel.StartShows | src/components/planner/PlannerBacklogPanel.tsx:83-90 | start records the task, clears the calendar preview and shows a backlog preview at the pointer |
| BacklogPanel.MoveOverTaskOrList | src/components/planner/PlannerBacklogPanel.tsx:99-110 | over a task or list the hover is that target, the day highlight is cleared and the calendar preview is untouched |
| BacklogPanel.MoveOverCalendarSlot | src/components/planner/PlannerBacklogPanel.tsx:111-121 | over a slot the list hover clears, the day is highlighted and a block is previewed at hour × 60 minutes with a calendar drag preview, each only where its callback is supplied; the dragged task and the mutations are unchanged |
| BacklogPanel.MoveOverDay | src/components/planner/PlannerBacklogPanel.tsx:123-138 | over a day the list hover clears and the day is highlighted; the drag preview's variant follows the day's origin, and only the calendar variant previews a block, at minute 0, each only where its callback is supplied; the dragged task and the mutations are unchanged |
| BacklogPanel.MoveOverNothing | src/components/planner/PlannerBacklogPanel.tsx:140-144 | with no target every highlight and the calendar preview are cleared |
| BacklogPanel.OffWebNoTarget | src/components/planner/PlannerBacklogPanel.tsx:96-98 | off the web a move never resolves a target |
| BacklogPanel.ReleaseCommitsAtMostOne | src/components/planner/PlannerBacklogPanel.tsx:149-179 | release ends the session with every region clear and commits at most one mutation, chosen by the target resolved at the release point |
| BacklogPanel.CancelClears | src/components/planner/PlannerBacklogPanel.tsx:181-187 | cancel ends the session with every region clear and commits nothing |
| BacklogPanel.CancelIsHarmlessWhenIdle | src/components/planner/PlannerBacklogPanel.tsx:181-187 | cancelling twice looks like cancelling once, and so does cancelling after a release |
| BacklogPanel.MoveAfterEndIsNoOp | src/components/planner/PlannerBacklogPanel.tsx:94-95 | after the session ends a move changes nothing |
| BacklogPanel.CalendarPreviewOutlivesListHover | src/components/planner/PlannerBacklogPanel.tsx:99-121 | after a slot and then a list, the calendar block preview is still shown |
| BacklogPanel.ActiveList | src/components/planner/PlannerBacklogPanel.tsx:64 | the list found by the selected id when one carries it, else the first list (also when no id is selected), and none only for no lists |
| BacklogPanel.ActiveListIsFirstMatch | src/components/planner/PlannerBacklogPanel.tsx:64 | when several lists carry the selected id, the earliest is active |
| BacklogPanel.VisibleLists | src/components/planner/PlannerBacklogPanel.tsx:71-74 | all lists under "view all", else exactly `[activeList]`, or nothing when there are no lists |
| BacklogPanel.IsExpanded | src/components/planner/PlannerBacklogPanel.tsx:257 | a single visible list is always expanded; under "view all" a list is expanded exactly when its flag is set to true, and unset flags count as collapsed |
| BacklogPanel.PlannerBacklogPanel.constructor | src/components/planner/PlannerBacklogPanel.tsx:64-81 | the panel mounts idle, collapsed and not under "view all" |
| BacklogPanel.PlannerBacklogPanel.HandleDragStart | src/components/planner/PlannerBacklogPanel.tsx:83-90 | the new state is the start step of the old one |
| BacklogPanel.PlannerBacklogPanel.HandleDragMove | src/components/planner/PlannerBacklogPanel.tsx:92-147 | the new state is the move step of the old one |
| BacklogPanel.PlannerBacklogPanel.HandleDragRelease | src/components/planner/PlannerBacklogPanel.tsx:149-179 | the new state is the release step of the old one |
| BacklogPanel.PlannerBacklogPanel.HandleDragCancel | src/components/planner/PlannerBacklogPanel.tsx:181-187 | the new state is the cancel step of the old one |
| BacklogPanel.PlannerBacklogPanel.HandleToggleExpand | src/components/planner/PlannerBacklogPanel.tsx:76-81 | one list's flag flips, and every other flag stays |
| BacklogPanel.PlannerBacklogPanel.ToggleShowAllLists | src/components/planner/PlannerBacklogPanel.tsx:71-74 | "view all" flips |
| BacklogPanel.PlannerBacklogPanel.HandleSelectList | src/components/planner/PlannerBacklogPanel.tsx:189-194 | "view all" is left and the selection is reported |
| BacklogPanel.PlannerBacklogPanel.PressListHeader | src/components/planner/PlannerBacklogPanel.tsx:268 | under "view all" it toggles the list's expansion, otherwise it selects the list |
| BacklogPanel.DraggableTaskRow.constructor | src/components/planner/PlannerBacklogPanel.tsx:345-358 | the row mounts with the skip flag off |
| BacklogPanel.DraggableTaskRow.OnGestureStart | src/components/planner/PlannerBacklogPanel.tsx:374-377 | the skip flag is armed and the drag starts |
| BacklogPanel.DraggableTaskRow.OnGestureFinalize | src/components/planner/PlannerBacklogPanel.tsx:384-394 | a reset is queued and the drag is cancelled |
| BacklogPanel.DraggableTaskRow.RunQueuedReset | src/components/planner/PlannerBacklogPanel.tsx:384-394 | the queued reset disarms the flag |
| BacklogPanel.DraggableTaskRow.HandleTaskPress | src/components/planner/PlannerBacklogPanel.tsx:360-369 | the first press after a drag only disarms the flag, and any other press opens the task |
| TaskBoard.DayIndexMapSpec | src/components/planner/PlannerTaskBoard.tsx:46-52 | the map's keys are the days' keys, and each maps to the last day with that key |
| TaskBoard.DayIndexMapBound | src/components/planner/PlannerTaskBoard.tsx:46-52 | every index is in range |
| TaskBoard.BuildDayIndexMap | src/components/planner/PlannerTaskBoard.tsx:46-52 | the loop builds that map |
| TaskBoard.TokenDayKey | src/components/planner/PlannerTaskBoard.tsx:62-63 | a string key is used as is, a number becomes `String(n)`, and anything else or an empty key is skipped |
| TaskBoard.KnownIndicesSpec | src/components/planner/PlannerTaskBoard.tsx:62-65 | the known indices are exactly those of the viewable keys in the map |
| TaskBoard.VisibleRange | src/components/planner/PlannerTaskBoard.tsx:56-77 | no callback reports nothing; otherwise nothing iff no key is known, else the first and last known days, bracketing every known index |
| TaskBoard.JsRem | src/components/planner/PlannerTaskBoard.tsx:142 | `%` truncates toward zero: for a non-negative dividend it is the mathematical remainder, for a negative one it is the negated remainder of the magnitude; its sign follows the dividend and it lies strictly between `-b` and `b` |
| TaskBoard.PadTwo | src/components/planner/PlannerTaskBoard.tsx:143 | `padStart(2, "0")` keeps a string of two or more characters, and left-pads a shorter one with zeros to exactly two |
| TaskBoard.FormatDurationSpec | src/components/planner/PlannerTaskBoard.tsx:139-144 | 0 formats to null; otherwise `h:mm` with two-digit minutes below 60 and `h*60 + mm` equal to the input |
| TaskBoard.FormatNinetyMinutes | src/components/planner/PlannerTaskBoard.tsx:139-144 | 90 minutes format as `1:30` |
| TaskBoard.FormatFiveMinutes | src/components/planner/PlannerTaskBoard.tsx:139-144 | 5 minutes format as `0:05` |
| TaskBoard.BadgeDuration | src/components/planner/PlannerTaskBoard.tsx:109 | the metrics value wins over the estimate when present |
| TaskBoard.BadgeTextSpec | src/components/planner/PlannerTaskBoard.tsx:109-111 | a metrics value of 0 hides the badge even with an estimate |
| DeleteListModal.HasTasks | src/features/planner/components/modals/PlannerDeleteListModal.tsx:45 | has tasks iff the count is present and positive |
| DeleteListModal.AvailableTargets | src/features/planner/components/modals/PlannerDeleteListModal.tsx:46 | the targets are the lists other than this one and the inbox |
| DeleteListModal.AvailableTargetsKeepsOrder | src/features/planner/components/modals/PlannerDeleteListModal.tsx:46 | the filter keeps the lists' order |
| DeleteListModal.InboxDisabled | src/features/planner/components/modals/PlannerDeleteListModal.tsx:47 | moving to the inbox is disabled iff there is no inbox or this list is the inbox |
| DeleteListModal.OtherDisabled | src/features/planner/components/modals/PlannerDeleteListModal.tsx:48 | moving elsewhere is disabled iff no list qualifies |
| DeleteListModal.OptionDisabled | src/features/planner/components/modals/PlannerDeleteListModal.tsx:81-100 | "delete tasks" is never disabled, and the other options follow their flags |
| DeleteListModal.SelectedTarget | src/features/planner/components/modals/PlannerDeleteListModal.tsx:50-57 | "move elsewhere" keeps the current target or takes the first available one; the other options clear it |
| DeleteListModal.ConfirmDisabled | src/features/planner/components/modals/PlannerDeleteListModal.tsx:59-63 | checking or submitting disables confirm; otherwise only a list with tasks can block it, through its chosen option |
| DeleteListModal.EnabledOptionAllowsConfirm | src/features/planner/components/modals/PlannerDeleteListModal.tsx:50-63 | choosing an enabled option when idle never leaves confirm disabled |
| DeleteListModal.DeleteListDialog.constructor | src/features/planner/components/modals/PlannerDeleteListModal.tsx:37-40 | the dialog opens on "delete tasks" with no target |
| DeleteListModal.DeleteListDialog.Rerender | src/features/planner/components/modals/PlannerDeleteListModal.tsx:37-40 | a change of visibility or list id resets the choice, and anything else keeps it |
| DeleteListModal.DeleteListDialog.SelectAction | src/features/planner/components/modals/PlannerDeleteListModal.tsx:50-57 | the action is set and the target is chosen as the selection rule says |
| DeleteListModal.DeleteListDialog.PressOption | src/features/planner/components/modals/PlannerDeleteListModal.tsx:81-100 | a disabled option changes nothing, and an enabled one is selected |
| DeleteListModal.DeleteListDialog.PickTarget | src/features/planner/components/modals/PlannerDeleteListModal.tsx:111-117 | only an offered destination can be picked (never the deleted list or the inbox), and it becomes the target |
| DeleteListModal.DeleteListDialog.PressConfirm | src/features/planner/components/modals/PlannerDeleteListModal.tsx:135-138 | a disabled confirm sends nothing, and an enabled one sends the action and the target |
| ListSettings.ProtectedListsOfferNothing | src/features/planner/components/modals/PlannerListSettingsModal.tsx:35-39 | an inbox or system list offers no delete and no footer invite |
| ListSettings.InboxInAnyCase | src/features/planner/components/modals/PlannerListSettingsModal.tsx:37-38 | "INBOX" and "Inbox" are protected, and "Inbox " is not |
| ListSettings.CustomListsOfferEverything | src/features/planner/components/modals/PlannerListSettingsModal.tsx:127 | an ordinary list can be deleted, and its footer invite is disabled iff the e-mail is all white space |
| ListSettings.FooterInviteEnabledWithoutList | src/features/planner/components/modals/PlannerListSettingsModal.tsx:238-240 | without a list the footer invite can be enabled |
| ListSettings.ListSettingsDialog.constructor | src/features/planner/components/modals/PlannerListSettingsModal.tsx:31-33 | the dialog opens on details, with the list's name and an empty e-mail |
| ListSettings.ListSettingsDialog.Rerender | src/features/planner/components/modals/PlannerListSettingsModal.tsx:45-47 | the name resets when the list's id or name changes |
| ListSettings.ListSettingsDialog.EditName | src/features/planner/components/modals/PlannerListSettingsModal.tsx:32 | the edited name is the text typed |
| ListSettings.ListSettingsDialog.EditEmail | src/features/planner/components/modals/PlannerListSettingsModal.tsx:33 | the e-mail input is the text typed |
| ListSettings.ListSettingsDialog.SetActiveTab | src/features/planner/components/modals/PlannerListSettingsModal.tsx:86 | the chosen tab is shown |
| ListSettings.ListSettingsDialog.HandleInvite | src/features/planner/components/modals/PlannerListSettingsModal.tsx:49-53 | without a list or with a blank e-mail nothing happens; otherwise the trimmed e-mail is invited as a collaborator, and the input is cleared unless sending fails |
| ListSettings.ListSettingsDialog.HandleRemove | src/features/planner/components/modals/PlannerListSettingsModal.tsx:55-58 | without a share id nothing is removed |
| ListSettings.ListSettingsDialog.PressDelete | src/features/planner/components/modals/PlannerListSettingsModal.tsx:124-127 | only an existing, unprotected list is deleted |
| ListSettings.ListSettingsDialog.PressSave | src/features/planner/components/modals/PlannerListSettingsModal.tsx:229-232 | a non-blank name is saved trimmed, and nothing else is saved |
| ListSettings.ListSettingsDialog.PressCardInvite | src/features/planner/components/modals/PlannerListSettingsModal.tsx:194-199 | the card's invite sends only a non-blank e-mail and only for a list, the trimmed e-mail as collaborator; the input is cleared unless the send fails |
| ListSettings.ListSettingsDialog.PressFooterInvite | src/features/planner/components/modals/PlannerListSettingsModal.tsx:237-240 | the footer invite never sends for a protected list or without a list; otherwise it sends a non-blank trimmed e-mail as collaborator and clears the input unless the send fails |
| AppSettings.DisplayName | src/components/planner/PlannerModals.tsx:194-198 | the first present of display name, full name and name, else "" |
| AppSettings.HeaderLabel | src/components/planner/PlannerModals.tsx:199 | the first non-empty of name and e-mail, else "You" |
| AppSettings.Split | src/components/planner/PlannerModals.tsx:201 | `split(" ")` gives at least one part, and no part contains a space |
| AppSettings.JoinSplit | src/components/planner/PlannerModals.tsx:201 | joining the parts with spaces gives back the text |
| AppSettings.FirstLetters | src/components/planner/PlannerModals.tsx:202-203 | at most one letter per part |
| AppSettings.FirstLettersAreWordInitials | src/components/planner/PlannerModals.tsx:200-203 | the first letters of the parts are the letters that follow a space or start the text |
| AppSettings.NoWordInitialIffSpaces | src/components/planner/PlannerModals.tsx:200-203 | there are no initials iff the text is all spaces |
| AppSettings.InitialsSpec | src/components/planner/PlannerModals.tsx:200-204 | the initials are the first two upper-cased word initials |
| AppSettings.InitialsExample | src/components/planner/PlannerModals.tsx:200-204 | "ada lovelace byron" gives "AL" |
| AppSettings.AvatarText | src/components/planner/PlannerModals.tsx:232 | one or two characters: the initials when there are any, else "U" (so always "U" for a blank label) |
| AppSettings.AlertMessage | src/components/planner/PlannerModals.tsx:218 | an Error's message, else "Please try again." |
| AppSettings.SignOutButton.constructor | src/components/planner/PlannerModals.tsx:210 | the button starts idle |
| AppSettings.SignOutButton.Press | src/components/planner/PlannerModals.tsx:212-216 | a press while signing out does nothing, and otherwise starts one sign-out |
| AppSettings.SignOutButton.Settle | src/components/planner/PlannerModals.tsx:217-222 | a failure alerts its message, and the flag always clears |
| PlannerTypes.FindList | src/features/planner/hooks/useListMembers.ts:23 | a list carrying that id, and none only when no list has it |
| PlannerTypes.FindListFirstMatch | src/features/planner/hooks/useListMembers.ts:23 | the list found is the earliest with that id |
| ListMembers.OwnerEntry | src/features/planner/hooks/useListMembers.ts:19-31 | no list id or no lists gives no owner; otherwise the owner exists iff the list is found, as an active owner without a share |
| ListMembers.NonRevoked | src/features/planner/hooks/useListMembers.ts:53 | revoked shares are dropped and every other share is kept |
| ListMembers.ToMembers | src/features/planner/hooks/useListMembers.ts:54-60 | one member per share, in order |
| ListMembers.MemberKey | src/features/planner/hooks/useListMembers.ts:65 | every member has a key, falling back to the role |
| ListMembers.ComputeMembers | src/features/planner/hooks/useListMembers.ts:51-70 | the loop computes the member list |
| ListMembers.MembersFromLiveShares | src/features/planner/hooks/useListMembers.ts:53-61 | every member is the owner or comes from a non-revoked share |
| ListMembers.OwnerComesFirst | src/features/planner/hooks/useListMembers.ts:61 | the owner is always listed first |
| ListMembers.MembersDeduplicated | src/features/planner/hooks/useListMembers.ts:63-69 | no two members share a key, no key is lost and the order is kept |
| ListMembers.ActiveMembers | src/features/planner/hooks/useListMembers.ts:72 | exactly the active members |
| ListMembers.ActiveMembersKeepsOrder | src/features/planner/hooks/useListMembers.ts:72 | the filter keeps the order |
| AssigneeProfiles.LastGiven | src/features/planner/hooks/useAssigneeProfiles.ts:12-16 | a later non-null field overrides an earlier one |
| AssigneeProfiles.SeedsSpec | src/features/planner/hooks/useAssigneeProfiles.ts:8-19 | one seed per non-empty id, holding the last name and e-mail given for it |
| AssigneeProfiles.CollectAssigneeSeeds | src/features/planner/hooks/useAssigneeProfiles.ts:8-19 | the loop computes the seeds, with null rows as none |
| AssigneeProfiles.LaterSourceWins | src/features/planner/hooks/useAssigneeProfiles.ts:35-41 | the last source with an id supplies its whole entry |
| AssigneeProfiles.SeedProfiles | src/features/planner/hooks/useAssigneeProfiles.ts:35-41 | the loop computes the merged seeds |
| AssigneeProfiles.CollectIds | src/features/planner/hooks/useAssigneeProfiles.ts:43-48 | the ids are the seed ids plus the truthy extra ids |
| AssigneeProfiles.SetToSeq | src/features/planner/hooks/useAssigneeProfiles.ts:49 | a set becomes a sequence of distinct elements with the same members |
| AssigneeProfiles.AssigneeIds | src/features/planner/hooks/useAssigneeProfiles.ts:43-50 | the ids are exactly the collected set, distinct and sorted |
| AssigneeProfiles.SortedIds | src/features/planner/hooks/useAssigneeProfiles.ts:49 | sorting distinct ids gives a strictly increasing list |
| AssigneeProfiles.AnyAssigneeId | src/features/planner/hooks/useAssigneeProfiles.ts:54 | the query runs iff there are seeds or a truthy extra id |
| AssigneeProfiles.LastFetchedName | src/features/planner/hooks/useAssigneeProfiles.ts:63-68 | the last fetched row for an id supplies the name |
| AssigneeProfiles.MergeFetchedSpec | src/features/planner/hooks/useAssigneeProfiles.ts:62-68 | the keys are the seeds plus the fetched ids, a fetched name overrides the seed's, and the e-mail stays the seed's |
| AssigneeProfiles.QueryProfiles | src/features/planner/hooks/useAssigneeProfiles.ts:56-70 | null data merges as no rows, into the seeds |
| ListsApi.SharedLists | src/data/remote/listsApi.ts:55-57 | the shared lists are the rows' non-null lists |
| ListsApi.SharedListsKeepsOrder | src/data/remote/listsApi.ts:55-57 | extraction keeps the rows' order |
| ListsApi.ListKey | src/data/remote/listsApi.ts:63 | a list without an id has no key |
| ListsApi.ListLeIsTotalPreorder | src/data/remote/listsApi.ts:70-75 | sort index, then name, is a total preorder |
| ListsApi.FetchLists | src/data/remote/listsApi.ts:19-76 | an unknown user gets nothing, and everyone else gets the sorted merge |
| ListsApi.MergedListsSorted | src/data/remote/listsApi.ts:60-75 | the result is sorted and a permutation of the de-duplicated lists |
| ListsApi.MergedMembers | src/data/remote/listsApi.ts:60-75 | sorting neither adds nor drops a list |
| ListsApi.MergedListsUniqueIds | src/data/remote/listsApi.ts:62-67 | every list has an id, and no two share one |
| ListsApi.MergedListsFromInputs | src/data/remote/listsApi.ts:60 | every result is an owned or a shared list |
| ListsApi.MergedListsKeepEveryId | src/data/remote/listsApi.ts:62-67 | every input id appears in the result |
| ListsApi.OwnedListWins | src/data/remote/listsApi.ts:60-64 | an owned list wins over a shared list with the same id |
| SharesApi.NormalizeListIds | src/data/remote/sharesApi.ts:22 | one id becomes a one-element list, and a list is kept |
| SharesApi.FetchListShares | src/data/remote/sharesApi.ts:21-33 | no ids gives nothing; with at least one id, the fetched rows, or `[]` for `data: null` |
| SharesApi.LoweredEmail | src/data/remote/sharesApi.ts:94 | the e-mail lowered, and null stays null |
| SharesApi.FilterPendingInvites | src/data/remote/sharesApi.ts:104-109 | exactly the pending rows for this user id or matching e-mail |
| SharesApi.FilterPendingInvitesKeepsOrder | src/data/remote/sharesApi.ts:105 | the filter keeps the order |
| SharesApi.FetchPendingInvitesForUser | src/data/remote/sharesApi.ts:92-110 | no user and no e-mail gives nothing; every row returned is pending |
| SharesApi.EmailMatchIgnoresCase | src/data/remote/sharesApi.ts:94-107 | lowering the e-mail first does not change the match |
| SharesApi.NullUserRowsMatchWithoutUserId | src/data/remote/sharesApi.ts:108 | without a user id, a pending row with a null user matches |
| SharesApi.InviteFoundInAnyCase | src/data/remote/sharesApi.ts:94-107 | two e-mails equal up to case find the same invites |
| Notifications.FilterNotifications | src/features/planner/hooks/useNotifications.ts:21-30 | exactly the items the rule keeps |
| Notifications.FilterSpec | src/features/planner/hooks/useNotifications.ts:21-30 | sender confirmations and self-triggered assignment changes are dropped, and every other item is kept |
| Notifications.WithoutUserOnlyConfirmationsDropped | src/features/planner/hooks/useNotifications.ts:25 | without a user only sender confirmations are dropped |
| Notifications.FilterKeepsOrder | src/features/planner/hooks/useNotifications.ts:21 | the filter keeps the order |
| Notifications.FilterIdempotent | src/features/planner/hooks/useNotifications.ts:21-30 | filtering twice is filtering once |
| Notifications.UnreadCount | src/features/planner/hooks/useNotifications.ts:45 | 0 iff every item is read, and never more than the items |
| Notifications.UnreadCountBounded | src/features/planner/hooks/useNotifications.ts:45 | filtering never raises the unread count |
| TasksApi.JoinedGroupsValid | src/services/api/tasks.ts:4 | five groups joined with dashes form a valid id iff the groups are valid hex with the version and variant digits |
| TasksApi.ValidIdSplits | src/services/api/tasks.ts:4 | every valid id splits into five valid groups |
| TasksApi.CaseInsensitive | src/services/api/tasks.ts:4 | the match ignores case |
| TasksApi.UpsertBody | src/services/api/tasks.ts:34-42 | every field is copied, except an id that is a string failing the pattern |
| TasksApi.HistoryLimit | src/services/api/tasks.ts:85 | 20 rows when skipping undo and redo, else 1 |
| TasksApi.Fetched | src/services/api/tasks.ts:86-90 | the query keeps only the newest `HistoryLimit` entries, in order |
| TasksApi.DropUndoRedo | src/services/api/tasks.ts:96-98 | exactly the entries that are not undo or redo |
| TasksApi.FirstKeptEntry | src/services/api/tasks.ts:96-99 | the first kept entry follows only undo and redo entries |
| TasksApi.LatestHistorySpec | src/services/api/tasks.ts:82-100 | an error gives null; otherwise the newest entry, or, when skipping, the first of the newest 20 that is not an undo or a redo, null when all 20 are |
| TasksApi.TwentyUndosHideOlderEntry | src/services/api/tasks.ts:85-99 | twenty undo entries followed by an ordinary one give null: the ordinary entry is beyond the limit |

## Left out

- Supabase: network calls, authentication and thrown query errors are not
  modelled. Query results are parameters. A failed query is modelled only
  where the code turns it into a value (`LatestHistory`); where it throws
  (`fetchLists`, `fetchListShares`, the profiles query), the model has no
  error path.
- The DOM and layout: `elementsFromPoint` and bounding rectangles are
  inputs, not computed.
- `Number(...)`: only integer strings with an optional `-` are parsed.
  Fractions, exponents, white space and hex are treated as NaN.
- Floating-point arithmetic: coordinates, heights and minutes are
  integers. Division uses floor, which matches `Math.floor` for a positive
  divisor.
- TaskBoard.FormatDurationSpec: `Math.round` of a fractional remainder is
  not modelled, because minutes are integers.
- Case mapping: it is ASCII only. Unicode case mapping is not modelled.
- Strings: a string is a sequence of Unicode code points, not of UTF-16
  code units. For text outside the supplementary planes the two agree.
  For other text, the order `.sort()` gives (`Sorting.StringLe`) and
  the character `part[0]` takes for an initial (`AppSettings.Initials`)
  can differ, since JavaScript may take half of a surrogate pair.
- Sorting: `localeCompare` is modelled as ordinal string comparison. Sort
  stability is not stated.
- JavaScript object keys: prototype keys such as "constructor" are not
  special in the maps that model records.
- Non-string payload values: `TasksApi.UpsertBody` sees only whether the
  id is a string.
- Rendering, styles, timers and `requestAnimationFrame`: not modelled. The
  queued reset of the press guard is a separate step (`RunQueuedReset`).
- Mutation callbacks: their internals and any failure after a commit are
  not modelled. Only the calls and their arguments are logged.
- ListSettings.ListSettingsDialog.HandleInvite: a failing send is a flag
  (`sendFails`). The awaited promise itself is not modelled.
- AppSettings.SignOutButton.Press: React state batching is not modelled. A
  second press within the same render, while the state update is still
  pending, could start a second sign-out; the model does not capture that.
- React Query: the cache, and which task-row sources are read from it, are
  not modelled. The sources are given as a sequence. The
  `profilesById ?? seeded` fallback while loading is not modelled.
- `externalHoverTarget`: this override of the list hover, passed in from
  outside the panel, is not modelled.
- Number keys: a `number` day key from the viewable items becomes
  `String(n)` for integers only.
- The second copy of the delete-list dialog in
  `src/components/planner/PlannerModals.tsx` is identical to
  `PlannerDeleteListModal.tsx`. It is modelled once.
