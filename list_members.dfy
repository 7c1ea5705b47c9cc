/** The member list of a shared list (src/features/planner/hooks/useListMembers.ts):
    the owner, derived from the list itself, followed by the list's shares
    that are not revoked, one entry per person. */
module ListMembers {
  import opened Common
  import opened PlannerTypes
  import opened SharesApi
  import opened Dedupe

  /** The signed-in user as the session gives it. */
  datatype SessionUser = SessionUser(id: string, email: Option<string>)

  /** `ListMember` */
  datatype ListMember = ListMember(
    userId: Option<string>,
    email: Option<string>,
    role: ShareRole,
    status: ShareStatus,
    source: Option<ListShareRow>)

  /** The owner entry: none without a list id, without lists or when the
      list is unknown; the signed-in user's e-mail when they own the list,
      else the text "List owner". */
  function OwnerEntry(listId: Option<string>, lists: Option<seq<ListRow>>, session: Option<SessionUser>): (r: Option<ListMember>)
    ensures !Truthy(listId) || lists.None? ==> r.None?
    ensures Truthy(listId) && lists.Some? ==> (r.Some? <==> exists l :: l in lists.value && l.id == listId.value)
    ensures r.Some? ==> r.value.role == Owner && r.value.status == Active && r.value.source.None?
    ensures r.Some? ==>
              var list := FindList(lists.value, listId.value).value;
              && r.value.userId == Some(list.userId)
              && (session.Some? && session.value.id == list.userId ==> r.value.email == session.value.email)
              && (!(session.Some? && session.value.id == list.userId) ==> r.value.email == Some("List owner"))
  {
    if !Truthy(listId) || lists.None? then None
    else match FindList(lists.value, listId.value)
      case None => None
      case Some(list) =>
        var ownerEmail := if session.Some? && list.userId == session.value.id then session.value.email else Some("List owner");
        Some(ListMember(Some(list.userId), ownerEmail, Owner, Active, None))
  }

  /** The share rows that are not revoked, in order. */
  function NonRevoked(rows: seq<ListShareRow>): (r: seq<ListShareRow>)
    ensures forall row :: row in r <==> row in rows && row.status != Revoked
  {
    if rows == [] then []
    else (if rows[0].status != Revoked then [rows[0]] else []) + NonRevoked(rows[1..])
  }

  function ToMember(row: ListShareRow): ListMember
  {
    ListMember(row.userId, row.invitedEmail, row.role, row.status, Some(row))
  }

  function ToMembers(rows: seq<ListShareRow>): (r: seq<ListMember>)
    ensures |r| == |rows| && forall i :: 0 <= i < |rows| ==> r[i] == ToMember(rows[i])
  {
    if rows == [] then [] else [ToMember(rows[0])] + ToMembers(rows[1..])
  }

  /** The owner, if any, then one member per share that is not revoked. */
  function AllMembers(owner: Option<ListMember>, data: Option<seq<ListShareRow>>): seq<ListMember>
  {
    var mapped := ToMembers(NonRevoked(Coalesce(data, Some([])).value));
    match owner
    case Some(o) => [o] + mapped
    case None => mapped
  }

  function RoleName(role: ShareRole): string
  {
    match role
    case Owner => "owner"
    case Collaborator => "collaborator"
  }

  /** The dedupe key `user_id ?? email ?? role`; every member has one. */
  function MemberKey(m: ListMember): (k: Option<string>)
    ensures k.Some?
  {
    Coalesce(m.userId, Coalesce(m.email, Some(RoleName(m.role))))
  }

  /** `members` */
  function Members(owner: Option<ListMember>, data: Option<seq<ListShareRow>>): seq<ListMember>
  {
    DedupeBy(AllMembers(owner, data), MemberKey)
  }

  /** The `members` memo: filter, map, prepend the owner, then drop repeated
      keys with a `seen` set. */
  method ComputeMembers(owner: Option<ListMember>, data: Option<seq<ListShareRow>>) returns (members: seq<ListMember>)
    ensures members == Members(owner, data)
  {
    var rows := Coalesce(data, Some([])).value;
    var activeShares := NonRevoked(rows);
    var mapped := ToMembers(activeShares);
    var all := if owner.Some? then [owner.value] + mapped else mapped;
    members := DedupeLoop(all, MemberKey);
  }

  /** No member comes from a revoked share, and a member is either the owner
      entry or a share that is not revoked. */
  lemma MembersFromLiveShares(owner: Option<ListMember>, data: Option<seq<ListShareRow>>, m: ListMember)
    requires owner.Some? ==> owner.value.status == Active
    requires m in Members(owner, data)
    ensures m.status != Revoked
    ensures (owner.Some? && m == owner.value)
            || exists row :: row in Coalesce(data, Some([])).value && row.status != Revoked && m == ToMember(row)
  {
    var all := AllMembers(owner, data);
    DedupeByIsSubsequence(all, MemberKey);
    SubsequenceMember(Members(owner, data), all, m);
    var mapped := ToMembers(NonRevoked(Coalesce(data, Some([])).value));
    if !(owner.Some? && m == owner.value) {
      assert m in mapped;
      var i :| 0 <= i < |mapped| && mapped[i] == m;
      assert NonRevoked(Coalesce(data, Some([])).value)[i] in NonRevoked(Coalesce(data, Some([])).value);
    }
  }

  /** The owner, when there is one, is the first member. */
  lemma OwnerComesFirst(owner: ListMember, data: Option<seq<ListShareRow>>)
    ensures |Members(Some(owner), data)| >= 1 && Members(Some(owner), data)[0] == owner
  {
    DedupeByKeepsHead(owner, ToMembers(NonRevoked(Coalesce(data, Some([])).value)), MemberKey);
  }

  /** No key occurs twice, each key of the candidates is kept, and for each
      key the first candidate that has it wins; members keep the order of
      the candidates. */
  lemma MembersDeduplicated(owner: Option<ListMember>, data: Option<seq<ListShareRow>>)
    ensures var r := Members(owner, data);
            forall i, j :: 0 <= i < j < |r| ==> MemberKey(r[i]) != MemberKey(r[j])
    ensures KeySet(Members(owner, data), MemberKey) == KeySet(AllMembers(owner, data), MemberKey)
    ensures var r := Members(owner, data);
            forall i :: 0 <= i < |r| ==>
              FirstWithKey(AllMembers(owner, data), MemberKey, MemberKey(r[i]).value) == Some(r[i])
    ensures IsSubsequence(Members(owner, data), AllMembers(owner, data))
  {
    var all := AllMembers(owner, data);
    DedupeByUniqueKeys(all, MemberKey);
    DedupeByKeySet(all, MemberKey);
    DedupeByKeepsFirst(all, MemberKey);
    DedupeByIsSubsequence(all, MemberKey);
  }

  /** `activeMembers`: the members whose status is active, in order. */
  function ActiveMembers(members: seq<ListMember>): (r: seq<ListMember>)
    ensures forall m :: m in r <==> m in members && m.status == Active
    ensures |r| <= |members|
  {
    if members == [] then []
    else (if members[0].status == Active then [members[0]] else []) + ActiveMembers(members[1..])
  }

  /** Filtering a concatenation filters each part, so order is kept. */
  lemma {:induction false} ActiveMembersKeepsOrder(a: seq<ListMember>, b: seq<ListMember>)
    ensures ActiveMembers(a + b) == ActiveMembers(a) + ActiveMembers(b)
  {
    if a != [] {
      assert (a + b)[1..] == a[1..] + b;
      ActiveMembersKeepsOrder(a[1..], b);
    } else {
      assert a + b == b;
    }
  }
}
