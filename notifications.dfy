/** The notification feed's filter and unread count
    (src/features/planner/hooks/useNotifications.ts). */
module Notifications {
  import opened Common

  const ShareInvitedSent := "share_invited_sent"
  const AssignmentAssigned := "assignment_assigned"
  const AssignmentUnassigned := "assignment_unassigned"

  /** A notification row: its kind, the payload's `actor_id` and
      `read_at`. */
  datatype NotificationRow = NotificationRow(id: string, kind: string, actorId: Option<string>, readAt: Option<string>)

  predicate IsAssignmentChange(item: NotificationRow)
  {
    item.kind == AssignmentAssigned || item.kind == AssignmentUnassigned
  }

  /** The filter's test: the sender's own invite confirmation is dropped,
      and so is an assignment change the signed-in user made themselves. */
  predicate Keep(item: NotificationRow, userId: Option<string>)
  {
    if item.kind == ShareInvitedSent then false
    else if IsAssignmentChange(item) && Truthy(userId) then
      !(Truthy(item.actorId) && item.actorId.value == userId.value)
    else true
  }

  /** `filteredNotifications` over the fetched rows. */
  function FilterNotifications(items: seq<NotificationRow>, userId: Option<string>): (r: seq<NotificationRow>)
    ensures forall item :: item in r <==> item in items && Keep(item, userId)
    ensures |r| <= |items|
  {
    if items == [] then []
    else (if Keep(items[0], userId) then [items[0]] else []) + FilterNotifications(items[1..], userId)
  }

  /** `(notificationsQuery.data ?? []).filter(...)` */
  function FilteredNotifications(data: Option<seq<NotificationRow>>, userId: Option<string>): seq<NotificationRow>
  {
    FilterNotifications(Coalesce(data, Some([])).value, userId)
  }

  /** What survives: never an invite confirmation, never a self-made
      assignment change when the user is known, and everything else. */
  lemma FilterSpec(items: seq<NotificationRow>, userId: Option<string>, item: NotificationRow)
    requires item in items
    ensures item.kind == ShareInvitedSent ==> item !in FilterNotifications(items, userId)
    ensures IsAssignmentChange(item) && Truthy(userId) && item.actorId == userId ==> item !in FilterNotifications(items, userId)
    ensures item.kind != ShareInvitedSent && !(IsAssignmentChange(item) && Truthy(userId) && item.actorId == userId)
            ==> item in FilterNotifications(items, userId)
  {
  }

  /** Without a user id only invite confirmations are removed. */
  lemma {:induction false} WithoutUserOnlyConfirmationsDropped(items: seq<NotificationRow>, userId: Option<string>)
    requires !Truthy(userId)
    ensures FilterNotifications(items, userId) == FilterNotifications(items, None)
    ensures forall item :: item in FilterNotifications(items, userId) <==> item in items && item.kind != ShareInvitedSent
  {
    if items != [] {
      WithoutUserOnlyConfirmationsDropped(items[1..], userId);
    }
  }

  /** The filter keeps the fetched order. */
  lemma {:induction false} FilterKeepsOrder(a: seq<NotificationRow>, b: seq<NotificationRow>, userId: Option<string>)
    ensures FilterNotifications(a + b, userId) == FilterNotifications(a, userId) + FilterNotifications(b, userId)
  {
    if a != [] {
      assert (a + b)[1..] == a[1..] + b;
      FilterKeepsOrder(a[1..], b, userId);
    } else {
      assert a + b == b;
    }
  }

  /** Filtering twice is filtering once. */
  lemma {:induction false} FilterIdempotent(items: seq<NotificationRow>, userId: Option<string>)
    ensures FilterNotifications(FilterNotifications(items, userId), userId) == FilterNotifications(items, userId)
  {
    if items != [] {
      FilterIdempotent(items[1..], userId);
      var rest := FilterNotifications(items[1..], userId);
      if Keep(items[0], userId) {
        assert ([items[0]] + rest)[1..] == rest;
      } else {
        assert [] + rest == rest;
      }
    }
  }

  /** `unreadCount`: the items without `read_at`. */
  function UnreadCount(items: seq<NotificationRow>): (n: nat)
    ensures n <= |items|
    ensures n == 0 <==> forall item :: item in items ==> Truthy(item.readAt)
  {
    if items == [] then 0
    else (if !Truthy(items[0].readAt) then 1 else 0) + UnreadCount(items[1..])
  }

  /** The unread count of the feed never exceeds the feed's length, nor the
      unread count of everything fetched. */
  lemma {:induction false} UnreadCountBounded(items: seq<NotificationRow>, userId: Option<string>)
    ensures UnreadCount(FilterNotifications(items, userId)) <= |FilterNotifications(items, userId)|
    ensures UnreadCount(FilterNotifications(items, userId)) <= UnreadCount(items)
  {
    if items != [] {
      UnreadCountBounded(items[1..], userId);
      var rest := FilterNotifications(items[1..], userId);
      if Keep(items[0], userId) {
        assert ([items[0]] + rest)[1..] == rest;
      } else {
        assert [] + rest == rest;
      }
    }
  }
}
