/** List shares: the id normalisation of `fetchListShares` and the row
    filter of `fetchPendingInvitesForUser` (src/data/remote/sharesApi.ts). */
module SharesApi {
  import opened Common

  datatype ShareRole = Owner | Collaborator
  datatype ShareStatus = Pending | Active | Revoked

  /** `ListShareRow` */
  datatype ListShareRow = ListShareRow(
    id: string,
    listId: string,
    userId: Option<string>,
    invitedEmail: Option<string>,
    role: ShareRole,
    status: ShareStatus,
    invitedBy: Option<string>)

  /** `fetchListShares` takes one list id or an array of them. */
  datatype ListIds = OneListId(id: string) | ManyListIds(ids: seq<string>)

  /** The array of ids queried: one id becomes a one-element array, even
      when it is empty. */
  function NormalizeListIds(arg: ListIds): (ids: seq<string>)
    ensures arg.OneListId? ==> ids == [arg.id]
    ensures arg.ManyListIds? ==> ids == arg.ids
  {
    match arg
    case OneListId(id) => [id]
    case ManyListIds(ids) => ids
  }

  /** The rows `fetchListShares` returns, the query's answer `data` given:
      nothing without ids, else the fetched rows (`data ?? []`). */
  function FetchListShares(arg: ListIds, data: Option<seq<ListShareRow>>): (rows: seq<ListShareRow>)
    ensures NormalizeListIds(arg) == [] ==> rows == []
    ensures arg.OneListId? ==> rows == Coalesce(data, Some([])).value
    ensures NormalizeListIds(arg) != [] ==> rows == Coalesce(data, Some([])).value
  {
    var ids := NormalizeListIds(arg);
    if |ids| == 0 then [] else Coalesce(data, Some([])).value
  }

  /** The e-mail as the function keeps it: lower-cased, null when absent. */
  function LoweredEmail(email: Option<string>): (r: Option<string>)
    ensures email.None? <==> r.None?
    ensures email.Some? ==> r.value == Lower(email.value)
  {
    match email
    case Some(e) => Some(Lower(e))
    case None => None
  }

  /** The invited e-mail equals the user's e-mail, ignoring case; false
      unless both are non-empty. */
  predicate EmailMatch(row: ListShareRow, email: Option<string>)
  {
    if Truthy(email) && Truthy(row.invitedEmail) then Lower(row.invitedEmail.value) == Lower(email.value)
    else false
  }

  /** The filter's test: a pending row addressed to the user by id (null
      equals null) or by e-mail. */
  predicate IsPendingInviteFor(row: ListShareRow, userId: Option<string>, email: Option<string>)
  {
    row.status == Pending && (row.userId == userId || EmailMatch(row, email))
  }

  function FilterPendingInvites(rows: seq<ListShareRow>, userId: Option<string>, email: Option<string>): (r: seq<ListShareRow>)
    ensures forall row :: row in r <==> row in rows && IsPendingInviteFor(row, userId, email)
    ensures |r| <= |rows|
  {
    if rows == [] then []
    else (if IsPendingInviteFor(rows[0], userId, email) then [rows[0]] else []) + FilterPendingInvites(rows[1..], userId, email)
  }

  /** The filter keeps the fetched order: filtering a concatenation filters
      each part. */
  lemma {:induction false} FilterPendingInvitesKeepsOrder(a: seq<ListShareRow>, b: seq<ListShareRow>, userId: Option<string>, email: Option<string>)
    ensures FilterPendingInvites(a + b, userId, email)
            == FilterPendingInvites(a, userId, email) + FilterPendingInvites(b, userId, email)
  {
    if a != [] {
      var head := if IsPendingInviteFor(a[0], userId, email) then [a[0]] else [];
      calc {
        FilterPendingInvites(a + b, userId, email);
        == { assert (a + b)[0] == a[0] && (a + b)[1..] == a[1..] + b; }
        head + FilterPendingInvites(a[1..] + b, userId, email);
        == { FilterPendingInvitesKeepsOrder(a[1..], b, userId, email); }
        head + (FilterPendingInvites(a[1..], userId, email) + FilterPendingInvites(b, userId, email));
        (head + FilterPendingInvites(a[1..], userId, email)) + FilterPendingInvites(b, userId, email);
      }
    } else {
      assert a + b == b;
    }
  }

  /** `fetchPendingInvitesForUser`, the query's answer `data` given. */
  function FetchPendingInvitesForUser(userId: Option<string>, email: Option<string>, data: Option<seq<ListShareRow>>): (r: seq<ListShareRow>)
    ensures !Truthy(userId) && !Truthy(email) ==> r == []
    ensures forall row :: row in r ==> row.status == Pending
    ensures Truthy(userId) || Truthy(email) ==>
              forall row :: row in r <==>
                row in Coalesce(data, Some([])).value && row.status == Pending
                && (row.userId == userId || EmailMatch(row, email))
  {
    var lowered := LoweredEmail(email);
    assert Truthy(lowered) <==> Truthy(email);
    if !Truthy(userId) && !Truthy(lowered) then []
    else
      var rows := Coalesce(data, Some([])).value;
      EmailMatchIgnoresCase(rows, email);
      FilterPendingInvites(rows, userId, lowered)
  }

  /** Lower-casing the e-mail before matching changes nothing, since the
      match lower-cases both sides again. */
  lemma EmailMatchIgnoresCase(rows: seq<ListShareRow>, email: Option<string>)
    ensures forall row :: row in rows ==> (EmailMatch(row, LoweredEmail(email)) <==> EmailMatch(row, email))
  {
    if email.Some? {
      LowerIdempotent(email.value);
    }
  }

  /** Without a user id, a pending row with no user id is returned whatever
      its e-mail, because null equals null. */
  lemma NullUserRowsMatchWithoutUserId(email: Option<string>, data: seq<ListShareRow>, row: ListShareRow)
    requires Truthy(email)
    requires row in data && row.status == Pending && row.userId.None?
    ensures row in FetchPendingInvitesForUser(None, email, Some(data))
  {
  }

  /** An invite addressed to an e-mail is found whatever case the user's
      e-mail is written in. */
  lemma InviteFoundInAnyCase(userId: Option<string>, e1: string, e2: string, data: seq<ListShareRow>)
    requires Lower(e1) == Lower(e2)
    ensures FetchPendingInvitesForUser(userId, Some(e1), Some(data)) == FetchPendingInvitesForUser(userId, Some(e2), Some(data))
  {
    assert |e1| == |e2|;
    assert e1 == "" <==> e2 == "";
  }
}
