/** The list settings dialog
    (src/features/planner/components/modals/PlannerListSettingsModal.tsx):
    its edited name and invite e-mail, its two tabs, and what its buttons
    send. */
module ListSettings {
  import opened Common
  import opened PlannerTypes

  datatype Tab = Details | Sharing

  datatype InviteRole = OwnerRole | CollaboratorRole

  /** A call of `onSendInvite`. */
  datatype Invite = Invite(email: string, role: InviteRole)

  /** A call of `onRemoveMember`. */
  datatype Removal = Removal(shareId: string, memberUserId: Option<string>)

  /** A call of `onSaveName`. */
  datatype SavedName = SavedName(listId: string, name: string)

  /** The name shown for a list: `list?.name ?? ""`. */
  function ListName(list: Option<ListRow>): string
  {
    if list.Some? then Coalesce(list.value.name, Some("")).value else ""
  }

  /** Inbox and system lists can be neither shared nor deleted. */
  predicate IsInboxOrSystem(list: Option<ListRow>)
  {
    list.Some? && (list.value.isSystem || Lower(Coalesce(list.value.name, Some("")).value) == "inbox")
  }

  predicate DeleteDisabled(list: Option<ListRow>)
  {
    list.None? || IsInboxOrSystem(list)
  }

  predicate SaveDisabled(name: string)
  {
    IsBlank(name)
  }

  /** The invite button inside the sharing card. */
  predicate CardInviteDisabled(emailInput: string)
  {
    IsBlank(emailInput)
  }

  /** The footer's invite button on the sharing tab. */
  predicate FooterInviteDisabled(list: Option<ListRow>, emailInput: string)
  {
    IsBlank(emailInput) || IsInboxOrSystem(list)
  }

  /** The name effect's dependencies: `list?.id` and `list?.name`. */
  predicate NameDependenciesChanged(before: Option<ListRow>, after: Option<ListRow>)
  {
    (if before.Some? then Some(before.value.id) else None) != (if after.Some? then Some(after.value.id) else None)
    || (if before.Some? then before.value.name else None) != (if after.Some? then after.value.name else None)
  }

  /** An inbox or system list, whatever the case of its name, offers no
      delete and no footer invite. */
  lemma ProtectedListsOfferNothing(list: ListRow, emailInput: string)
    requires list.isSystem || Lower(Coalesce(list.name, Some("")).value) == "inbox"
    ensures DeleteDisabled(Some(list))
    ensures FooterInviteDisabled(Some(list), emailInput)
  {
  }

  /** Any-case spellings of "inbox" are protected. */
  lemma InboxInAnyCase()
    ensures IsInboxOrSystem(Some(ListRow("l", "u", Some("INBOX"), None, false)))
    ensures IsInboxOrSystem(Some(ListRow("l", "u", Some("Inbox"), None, false)))
    ensures !IsInboxOrSystem(Some(ListRow("l", "u", Some("Inbox "), None, false)))
  {
    assert Lower("INBOX") == "inbox";
    assert Lower("Inbox") == "inbox";
    assert Lower("Inbox ")[5] == ' ';
  }

  /** For an ordinary list, delete is offered and the footer invite is
      disabled exactly when the e-mail is blank. */
  lemma CustomListsOfferEverything(list: ListRow, emailInput: string)
    requires !list.isSystem && Lower(Coalesce(list.name, Some("")).value) != "inbox"
    ensures !DeleteDisabled(Some(list))
    ensures FooterInviteDisabled(Some(list), emailInput) <==> AllSpace(emailInput)
  {
    BlankIffAllSpace(emailInput);
  }

  /** Without a list the footer invite can be enabled although pressing it
      sends nothing (`handleInvite` returns early). */
  lemma FooterInviteEnabledWithoutList()
    ensures !FooterInviteDisabled(None, "a@b.c")
  {
    assert IsBlank("a@b.c") ==> AllSpace("a@b.c") by {
      BlankIffAllSpace("a@b.c");
    }
    assert !IsJsSpace("a@b.c"[0]);
  }

  class ListSettingsDialog {
    var list: Option<ListRow>
    var activeTab: Tab
    var name: string
    var emailInput: string
    var invites: seq<Invite>
    var removals: seq<Removal>
    var savedNames: seq<SavedName>
    /** Calls of `onDelete`, in order. */
    var deleted: seq<ListRow>

    /** Mounting: the details tab, the list's name and an empty e-mail. */
    constructor(list: Option<ListRow>)
      ensures this.list == list && activeTab == Details
      ensures name == ListName(list) && emailInput == ""
      ensures invites == [] && removals == [] && savedNames == [] && deleted == []
    {
      this.list := list;
      activeTab := Details;
      name := ListName(list);
      emailInput := "";
      invites := [];
      removals := [];
      savedNames := [];
      deleted := [];
    }

    /** A re-render with a new `list`: the edited name is reset to the
        list's name when its id or name changed, and kept otherwise. */
    method Rerender(next: Option<ListRow>)
      modifies this`list, this`name
      ensures list == next
      ensures NameDependenciesChanged(old(list), next) ==> name == ListName(next)
      ensures !NameDependenciesChanged(old(list), next) ==> name == old(name)
    {
      var before := list;
      list := next;
      if NameDependenciesChanged(before, next) {
        name := ListName(next);
      }
    }

    method EditName(text: string)
      modifies this`name
      ensures name == text
    {
      name := text;
    }

    method EditEmail(text: string)
      modifies this`emailInput
      ensures emailInput == text
    {
      emailInput := text;
    }

    method SetActiveTab(tab: Tab)
      modifies this`activeTab
      ensures activeTab == tab
    {
      activeTab := tab;
    }

    /** `handleInvite`: nothing without a list or with a blank e-mail;
        otherwise the trimmed e-mail is invited as a collaborator and the
        input cleared, unless sending fails, which leaves the input. */
    method HandleInvite(sendFails: bool)
      modifies this`invites, this`emailInput
      ensures list.None? || IsBlank(old(emailInput)) ==> invites == old(invites) && emailInput == old(emailInput)
      ensures list.Some? && !IsBlank(old(emailInput)) ==>
                && invites == old(invites) + [Invite(Trim(old(emailInput)), CollaboratorRole)]
                && emailInput == (if sendFails then old(emailInput) else "")
      ensures forall i :: |old(invites)| <= i < |invites| ==> invites[i].email != "" && invites[i].role == CollaboratorRole
    {
      if list.None? || IsBlank(emailInput) {
        return;
      }
      var email := Trim(emailInput);
      assert email != "";
      invites := invites + [Invite(email, CollaboratorRole)];
      if !sendFails {
        emailInput := "";
      }
    }

    /** `handleRemove`: nothing without a share id. */
    method HandleRemove(shareId: Option<string>, memberUserId: Option<string>)
      modifies this`removals
      ensures !Truthy(shareId) ==> removals == old(removals)
      ensures Truthy(shareId) ==> removals == old(removals) + [Removal(shareId.value, memberUserId)]
    {
      if !Truthy(shareId) {
        return;
      }
      removals := removals + [Removal(shareId.value, memberUserId)];
    }

    /** The danger-zone button on the details tab. */
    method PressDelete()
      requires activeTab == Details
      modifies this`deleted
      ensures DeleteDisabled(list) ==> deleted == old(deleted)
      ensures !DeleteDisabled(list) ==> deleted == old(deleted) + [list.value]
    {
      if !DeleteDisabled(list) {
        deleted := deleted + [list.value];
      }
    }

    /** "Save changes" on the details tab: the trimmed name, which is never
        blank here, so the "Untitled list" fallback is never sent. */
    method PressSave()
      requires activeTab == Details
      modifies this`savedNames
      ensures SaveDisabled(name) || list.None? ==> savedNames == old(savedNames)
      ensures !SaveDisabled(name) && list.Some? ==>
                savedNames == old(savedNames) + [SavedName(list.value.id, Trim(name))]
    {
      if SaveDisabled(name) || list.None? {
        return;
      }
      var trimmed := Trim(name);
      var saved := if trimmed == "" then "Untitled list" else trimmed;
      savedNames := savedNames + [SavedName(list.value.id, saved)];
    }

    /** The invite button in the sharing card, shown only for lists that
        can be shared. */
    method PressCardInvite(sendFails: bool)
      requires activeTab == Sharing && !IsInboxOrSystem(list)
      modifies this`invites, this`emailInput
      ensures CardInviteDisabled(old(emailInput)) ==> invites == old(invites) && emailInput == old(emailInput)
      ensures list.None? ==> invites == old(invites) && emailInput == old(emailInput)
      ensures !CardInviteDisabled(old(emailInput)) && list.Some? ==>
                && invites == old(invites) + [Invite(Trim(old(emailInput)), CollaboratorRole)]
                && emailInput == (if sendFails then old(emailInput) else "")
    {
      if !CardInviteDisabled(emailInput) {
        HandleInvite(sendFails);
      }
    }

    /** The footer's invite button on the sharing tab: never sends for an
        inbox or system list. */
    method PressFooterInvite(sendFails: bool)
      requires activeTab == Sharing
      modifies this`invites, this`emailInput
      ensures IsInboxOrSystem(list) ==> invites == old(invites) && emailInput == old(emailInput)
      ensures FooterInviteDisabled(list, old(emailInput)) ==> invites == old(invites) && emailInput == old(emailInput)
      ensures list.None? ==> invites == old(invites) && emailInput == old(emailInput)
      ensures !FooterInviteDisabled(list, old(emailInput)) && list.Some? ==>
                && invites == old(invites) + [Invite(Trim(old(emailInput)), CollaboratorRole)]
                && emailInput == (if sendFails then old(emailInput) else "")
    {
      if !FooterInviteDisabled(list, emailInput) {
        HandleInvite(sendFails);
      }
    }
  }
}
