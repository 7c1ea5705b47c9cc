/** The delete-list dialog: which destinations the tasks of a list being
    deleted may be moved to, which choice is selected, and when Confirm is
    enabled. The same rules appear twice in the application (a feature
    modal and a copy inside the planner's modal collection); they are
    modelled once here. */
module DeleteListModal {
  import opened Common
  import opened PlannerTypes

  /** `DeleteAction`: "delete" | "move_inbox" | "move_other" */
  datatype DeleteAction = DeleteTasks | MoveToInbox | MoveToOther

  /** The dialog's inputs. */
  datatype Props = Props(
    visible: bool,
    list: Option<ListRow>,
    taskCount: Option<int>,
    checkingTasks: bool,
    submitting: bool,
    inboxList: Option<ListRow>,
    lists: seq<ListRow>)

  /** One call of `onConfirm(action, moveTargetId)`. */
  datatype Confirmation = Confirmation(action: DeleteAction, targetListId: Option<string>)

  /** `(taskCount ?? 0) > 0` */
  function HasTasks(taskCount: Option<int>): (r: bool)
    ensures r <==> taskCount.Some? && taskCount.value > 0
  {
    Coalesce(taskCount, Some(0)).value > 0
  }

  /** A list other than the one being deleted and other than the inbox. */
  predicate IsMoveTarget(candidate: ListRow, list: ListRow, inboxList: Option<ListRow>)
  {
    candidate.id != list.id && (inboxList.None? || candidate.id != inboxList.value.id)
  }

  /** `availableTargets`: the lists tasks may be moved to, in their original
      order. */
  function AvailableTargets(lists: seq<ListRow>, list: ListRow, inboxList: Option<ListRow>): (r: seq<ListRow>)
    ensures forall c :: c in r <==> c in lists && IsMoveTarget(c, list, inboxList)
    ensures |r| <= |lists|
  {
    if lists == [] then []
    else if IsMoveTarget(lists[0], list, inboxList) then [lists[0]] + AvailableTargets(lists[1..], list, inboxList)
    else AvailableTargets(lists[1..], list, inboxList)
  }

  /** Filtering a concatenation filters each part: the targets keep the
      order the lists came in. */
  lemma {:induction false} AvailableTargetsKeepsOrder(a: seq<ListRow>, b: seq<ListRow>, list: ListRow, inboxList: Option<ListRow>)
    ensures AvailableTargets(a + b, list, inboxList) == AvailableTargets(a, list, inboxList) + AvailableTargets(b, list, inboxList)
  {
    if a != [] {
      var head := if IsMoveTarget(a[0], list, inboxList) then [a[0]] else [];
      calc {
        AvailableTargets(a + b, list, inboxList);
        == { assert (a + b)[0] == a[0] && (a + b)[1..] == a[1..] + b; }
        head + AvailableTargets(a[1..] + b, list, inboxList);
        == { AvailableTargetsKeepsOrder(a[1..], b, list, inboxList); }
        head + (AvailableTargets(a[1..], list, inboxList) + AvailableTargets(b, list, inboxList));
        (head + AvailableTargets(a[1..], list, inboxList)) + AvailableTargets(b, list, inboxList);
      }
    } else {
      assert a + b == b;
    }
  }

  /** `inboxDisabled`: there is no inbox, or the inbox is the list being
      deleted. */
  function InboxDisabled(list: ListRow, inboxList: Option<ListRow>): (r: bool)
    ensures r <==> inboxList.None? || inboxList.value.id == list.id
  {
    match inboxList
    case None => true
    case Some(inbox) => inbox.id == list.id
  }

  /** `otherDisabled`: nowhere else to move the tasks. */
  function OtherDisabled(lists: seq<ListRow>, list: ListRow, inboxList: Option<ListRow>): (r: bool)
    ensures r <==> forall c :: c in lists ==> !IsMoveTarget(c, list, inboxList)
  {
    var available := AvailableTargets(lists, list, inboxList);
    assert available != [] ==> available[0] in available;
    |available| == 0
  }

  /** Whether pressing an option is ignored. */
  function OptionDisabled(option: DeleteAction, list: ListRow, p: Props): (r: bool)
    ensures option == DeleteTasks ==> !r
    ensures option == MoveToInbox ==> (r <==> InboxDisabled(list, p.inboxList))
    ensures option == MoveToOther ==> (r <==> OtherDisabled(p.lists, list, p.inboxList))
  {
    match option
    case DeleteTasks => false
    case MoveToInbox => InboxDisabled(list, p.inboxList)
    case MoveToOther => OtherDisabled(p.lists, list, p.inboxList)
  }

  /** The move target after `selectAction(next)`: moving elsewhere keeps the
      chosen target, else proposes the first available list; any other
      action forgets the target. */
  function SelectedTarget(next: DeleteAction, current: Option<string>, available: seq<ListRow>): (r: Option<string>)
    ensures next != MoveToOther ==> r.None?
    ensures next == MoveToOther && current.Some? ==> r == current
    ensures next == MoveToOther && current.None? ==>
              (r.Some? <==> available != []) && (r.Some? ==> r.value == available[0].id)
  {
    if next == MoveToOther then
      Coalesce(current, if available == [] then None else Some(available[0].id))
    else None
  }

  /** `confirmDisabled || submitting`: Confirm is off while tasks are being
      counted or the deletion is being submitted; otherwise only a list with
      tasks can block it, through a move with no destination. */
  function ConfirmDisabled(p: Props, list: ListRow, action: DeleteAction, moveTargetId: Option<string>): (r: bool)
    ensures p.checkingTasks || p.submitting ==> r
    ensures !HasTasks(p.taskCount) ==> (r <==> p.checkingTasks || p.submitting)
    ensures action == DeleteTasks ==> (r <==> p.checkingTasks || p.submitting)
    ensures !p.checkingTasks && !p.submitting && action == MoveToOther ==>
              (r <==> HasTasks(p.taskCount) && (OtherDisabled(p.lists, list, p.inboxList) || !Truthy(moveTargetId)))
    ensures !p.checkingTasks && !p.submitting && action == MoveToInbox ==>
              (r <==> HasTasks(p.taskCount) && InboxDisabled(list, p.inboxList))
  {
    var hasTasks := HasTasks(p.taskCount);
    var confirmDisabled :=
      p.checkingTasks || p.submitting
      || (hasTasks && action == MoveToOther && (OtherDisabled(p.lists, list, p.inboxList) || !Truthy(moveTargetId)))
      || (hasTasks && action == MoveToInbox && InboxDisabled(list, p.inboxList));
    confirmDisabled || p.submitting
  }

  /** When nothing is busy, choosing an enabled option (with a fresh
      selection and list ids that are not empty) leaves Confirm enabled. */
  lemma EnabledOptionAllowsConfirm(p: Props, list: ListRow, next: DeleteAction)
    requires !p.checkingTasks && !p.submitting
    requires !OptionDisabled(next, list, p)
    requires forall c :: c in p.lists ==> c.id != ""
    ensures var target := SelectedTarget(next, None, AvailableTargets(p.lists, list, p.inboxList));
            !ConfirmDisabled(p, list, next, target)
  {
    var available := AvailableTargets(p.lists, list, p.inboxList);
    if next == MoveToOther {
      assert available != [];
      assert available[0] in p.lists;
    }
  }

  /** The effect that resets the choice runs when the dialog is shown or
      hidden, or when the list being deleted changes. */
  function ListId(p: Props): Option<string>
  {
    match p.list
    case Some(l) => Some(l.id)
    case None => None
  }

  predicate ResetDependenciesChanged(before: Props, after: Props)
  {
    before.visible != after.visible || ListId(before) != ListId(after)
  }

  class DeleteListDialog {
    var props: Props
    var action: DeleteAction
    var moveTargetId: Option<string>
    /** Calls of `onConfirm`, in order. */
    var confirmations: seq<Confirmation>

    /** A move target is only ever held while moving elsewhere. */
    ghost predicate Valid()
      reads this
    {
      action != MoveToOther ==> moveTargetId.None?
    }

    /** Mounting runs the reset effect. */
    constructor(props: Props)
      ensures Valid() && this.props == props
      ensures action == DeleteTasks && moveTargetId.None? && confirmations == []
    {
      this.props := props;
      action := DeleteTasks;
      moveTargetId := None;
      confirmations := [];
    }

    /** A re-render with new props; the reset effect runs when its
        dependencies changed. */
    method Rerender(next: Props)
      requires Valid()
      modifies this`props, this`action, this`moveTargetId
      ensures Valid() && props == next
      ensures ResetDependenciesChanged(old(props), next) ==> action == DeleteTasks && moveTargetId.None?
      ensures !ResetDependenciesChanged(old(props), next) ==>
                action == old(action) && moveTargetId == old(moveTargetId)
    {
      var before := props;
      props := next;
      if ResetDependenciesChanged(before, next) {
        action := DeleteTasks;
        moveTargetId := None;
      }
    }

    /** selectAction */
    method SelectAction(next: DeleteAction)
      requires Valid() && props.list.Some?
      modifies this`action, this`moveTargetId
      ensures Valid() && action == next
      ensures moveTargetId
              == SelectedTarget(next, old(moveTargetId), AvailableTargets(props.lists, props.list.value, props.inboxList))
    {
      var available := AvailableTargets(props.lists, props.list.value, props.inboxList);
      action := next;
      if next == MoveToOther {
        if moveTargetId.None? {
          moveTargetId := if |available| == 0 then None else Some(available[0].id);
        }
      } else {
        moveTargetId := None;
      }
    }

    /** A press on one of the three options; a disabled option ignores it. */
    method PressOption(option: DeleteAction)
      requires Valid() && props.list.Some?
      modifies this`action, this`moveTargetId
      ensures Valid()
      ensures OptionDisabled(option, props.list.value, props) ==>
                action == old(action) && moveTargetId == old(moveTargetId)
      ensures !OptionDisabled(option, props.list.value, props) ==>
                && action == option
                && moveTargetId
                   == SelectedTarget(option, old(moveTargetId), AvailableTargets(props.lists, props.list.value, props.inboxList))
    {
      if !OptionDisabled(option, props.list.value, props) {
        SelectAction(option);
      }
    }

    /** A press on one destination list in the picker, which is shown only
        while moving elsewhere and offers only the available targets. */
    method PickTarget(targetId: string)
      requires Valid() && action == MoveToOther && props.list.Some?
      requires exists t :: t in AvailableTargets(props.lists, props.list.value, props.inboxList) && t.id == targetId
      modifies this`moveTargetId
      ensures Valid() && moveTargetId == Some(targetId)
      ensures targetId != props.list.value.id
      ensures props.inboxList.Some? ==> targetId != props.inboxList.value.id
    {
      moveTargetId := Some(targetId);
    }

    /** A press on Confirm: reports the choice unless the button is
        disabled. */
    method PressConfirm()
      requires props.list.Some?
      modifies this`confirmations
      ensures ConfirmDisabled(props, props.list.value, action, moveTargetId) ==> confirmations == old(confirmations)
      ensures !ConfirmDisabled(props, props.list.value, action, moveTargetId) ==>
                confirmations == old(confirmations) + [Confirmation(action, moveTargetId)]
    {
      if !ConfirmDisabled(props, props.list.value, action, moveTargetId) {
        confirmations := confirmations + [Confirmation(action, moveTargetId)];
      }
    }
  }
}
