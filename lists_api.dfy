/** What `fetchLists` does with the rows it fetched: drop share rows without
    a list, put owned lists before shared ones, keep one list per id and
    order the result by sort index, then by name. */
module ListsApi {
  import opened Common
  import opened PlannerTypes
  import opened Dedupe
  import opened Sorting

  /** `Number.MAX_SAFE_INTEGER`, the sort index of a list without one. */
  const MaxSafeInteger: int := 9007199254740991

  /** A `list_shares` row joined with its list (`ListShareWithList`). */
  datatype ListShareWithList = ListShareWithList(id: string, list: Option<ListRow>)

  /** `!userId && !email`: without an identity nothing is fetched. The
      e-mail is lower-cased first, which does not change its truthiness. */
  predicate UnknownUser(userId: Option<string>, email: Option<string>)
  {
    var lowered := match email case Some(e) => Some(Lower(e)) case None => None;
    !Truthy(userId) && !Truthy(lowered)
  }

  /** The joined lists of the share rows, null ones dropped, in row order. */
  function SharedLists(rows: seq<ListShareWithList>): (r: seq<ListRow>)
    ensures forall l :: l in r <==> exists i :: 0 <= i < |rows| && rows[i].list == Some(l)
  {
    if rows == [] then []
    else (match rows[0].list case Some(l) => [l] case None => []) + SharedLists(rows[1..])
  }

  /** Extracting the lists of a concatenation extracts each part in turn. */
  lemma {:induction false} SharedListsKeepsOrder(a: seq<ListShareWithList>, b: seq<ListShareWithList>)
    ensures SharedLists(a + b) == SharedLists(a) + SharedLists(b)
  {
    if a != [] {
      assert (a + b)[1..] == a[1..] + b;
      SharedListsKeepsOrder(a[1..], b);
    } else {
      assert a + b == b;
    }
  }

  /** The dedupe key: the id, missing when empty (`!list?.id`). */
  function ListKey(l: ListRow): (k: Option<string>)
    ensures k.Some? <==> l.id != ""
    ensures k.Some? ==> k.value == l.id
  {
    if l.id == "" then None else Some(l.id)
  }

  function SortKey(l: ListRow): int
  {
    Coalesce(l.sortIndex, Some(MaxSafeInteger)).value
  }

  function NameKey(l: ListRow): string
  {
    Coalesce(l.name, Some("")).value
  }

  /** The comparator: sort index ascending, a missing index counting as the
      largest safe integer; ties ordered by name, a missing name counting as
      "". */
  function ListLe(a: ListRow, b: ListRow): bool
  {
    SortKey(a) < SortKey(b) || (SortKey(a) == SortKey(b) && StringLe(NameKey(a), NameKey(b)))
  }

  lemma ListLeIsTotalPreorder()
    ensures TotalPreorder(ListLe)
  {
    forall a, b ensures ListLe(a, b) || ListLe(b, a) {
      StringLeTotal(NameKey(a), NameKey(b));
    }
    forall a, b, c | ListLe(a, b) && ListLe(b, c) ensures ListLe(a, c) {
      if SortKey(a) == SortKey(b) == SortKey(c) {
        StringLeTransitive(NameKey(a), NameKey(b), NameKey(c));
      }
    }
  }

  /** The lists `fetchLists` returns for the rows it fetched. */
  function MergedLists(ownedData: Option<seq<ListRow>>, sharedData: Option<seq<ListShareWithList>>): seq<ListRow>
  {
    var owned := Coalesce(ownedData, Some([])).value;
    var shared := SharedLists(Coalesce(sharedData, Some([])).value);
    SortBy(DedupeBy(owned + shared, ListKey), ListLe)
  }

  /** The post-fetch part of `fetchLists`, with the identity guard; the
      rows the two queries return are parameters. */
  method FetchLists(userId: Option<string>, email: Option<string>,
                    ownedData: Option<seq<ListRow>>, sharedData: Option<seq<ListShareWithList>>)
    returns (lists: seq<ListRow>)
    ensures UnknownUser(userId, email) ==> lists == []
    ensures !UnknownUser(userId, email) ==> lists == MergedLists(ownedData, sharedData)
  {
    if UnknownUser(userId, email) {
      return [];
    }
    var owned := Coalesce(ownedData, Some([])).value;
    var shared := SharedLists(Coalesce(sharedData, Some([])).value);
    var unique := DedupeLoop(owned + shared, ListKey);
    lists := SortBy(unique, ListLe);
  }

  /** The merged lists are a sorted permutation of the deduplicated
      combined lists. */
  lemma MergedListsSorted(owned: seq<ListRow>, rows: seq<ListShareWithList>)
    ensures SortedBy(MergedLists(Some(owned), Some(rows)), ListLe)
    ensures multiset(MergedLists(Some(owned), Some(rows))) == multiset(DedupeBy(owned + SharedLists(rows), ListKey))
  {
    ListLeIsTotalPreorder();
    SortBySpec(DedupeBy(owned + SharedLists(rows), ListKey), ListLe);
  }

  /** Membership in the merged lists is membership in the dedupe. */
  lemma MergedMembers(owned: seq<ListRow>, rows: seq<ListShareWithList>, l: ListRow)
    ensures l in MergedLists(Some(owned), Some(rows)) <==> l in DedupeBy(owned + SharedLists(rows), ListKey)
  {
    MergedListsSorted(owned, rows);
    var r := MergedLists(Some(owned), Some(rows));
    var unique := DedupeBy(owned + SharedLists(rows), ListKey);
    assert l in r <==> l in multiset(r);
    assert l in unique <==> l in multiset(unique);
  }

  /** Every merged list has an id, and no id occurs twice. */
  lemma MergedListsUniqueIds(owned: seq<ListRow>, rows: seq<ListShareWithList>)
    ensures var r := MergedLists(Some(owned), Some(rows));
            forall i :: 0 <= i < |r| ==> r[i].id != ""
    ensures var r := MergedLists(Some(owned), Some(rows));
            forall i, j :: 0 <= i < j < |r| ==> r[i].id != r[j].id
  {
    var combined := owned + SharedLists(rows);
    var unique := DedupeBy(combined, ListKey);
    var r := MergedLists(Some(owned), Some(rows));
    MergedListsSorted(owned, rows);
    DedupeByUniqueKeys(combined, ListKey);
    forall i | 0 <= i < |r| ensures r[i].id != "" {
      MergedMembers(owned, rows, r[i]);
    }
    forall i, j | 0 <= i < j < |r| ensures r[i].id != r[j].id {
      UniqueKeysDistinct(r, unique, i, j);
    }
  }

  /** Nothing is added: each merged list is an owned or a shared list. */
  lemma MergedListsFromInputs(owned: seq<ListRow>, rows: seq<ListShareWithList>, l: ListRow)
    requires l in MergedLists(Some(owned), Some(rows))
    ensures l in owned || l in SharedLists(rows)
  {
    var combined := owned + SharedLists(rows);
    MergedMembers(owned, rows, l);
    DedupeByIsSubsequence(combined, ListKey);
    SubsequenceMember(DedupeBy(combined, ListKey), combined, l);
  }

  /** Every id among the owned and shared lists survives. */
  lemma MergedListsKeepEveryId(owned: seq<ListRow>, rows: seq<ListShareWithList>, o: ListRow)
    requires (o in owned || o in SharedLists(rows)) && o.id != ""
    ensures exists l :: l in MergedLists(Some(owned), Some(rows)) && l.id == o.id
  {
    var combined := owned + SharedLists(rows);
    var unique := DedupeBy(combined, ListKey);
    assert o in combined;
    var i :| 0 <= i < |combined| && combined[i] == o;
    assert ListKey(combined[i]) == Some(o.id);
    assert o.id in KeySet(combined, ListKey);
    DedupeByKeySet(combined, ListKey);
    assert o.id in KeySet(unique, ListKey);
    var k :| 0 <= k < |unique| && ListKey(unique[k]) == Some(o.id);
    MergedMembers(owned, rows, unique[k]);
    assert unique[k].id == o.id;
  }

  /** An owned list wins over a shared list with the same id. */
  lemma OwnedListWins(owned: seq<ListRow>, rows: seq<ListShareWithList>, l: ListRow, o: ListRow)
    requires l in MergedLists(Some(owned), Some(rows))
    requires o in owned && o.id == l.id
    ensures FirstWithKey(owned, ListKey, o.id) == Some(l)
    ensures l in owned
  {
    var combined := owned + SharedLists(rows);
    var unique := DedupeBy(combined, ListKey);
    MergedMembers(owned, rows, l);
    DedupeByKeepsFirst(combined, ListKey);
    DedupeByUniqueKeys(combined, ListKey);
    var k :| 0 <= k < |unique| && unique[k] == l;
    assert ListKey(unique[k]).Some?;
    assert FirstWithKey(combined, ListKey, l.id) == Some(l);
    FirstWithKeyAppend(owned, SharedLists(rows), ListKey, l.id);
    FirstWithKeyFound(owned, ListKey, o);
    FirstWithKeyMember(owned, ListKey, l.id);
  }

  /** Elements of a permutation of a sequence with distinct ids have
      distinct ids. */
  lemma UniqueKeysDistinct(r: seq<ListRow>, unique: seq<ListRow>, i: int, j: int)
    requires multiset(r) == multiset(unique)
    requires forall a, b :: 0 <= a < b < |unique| ==> ListKey(unique[a]) != ListKey(unique[b])
    requires forall a :: 0 <= a < |unique| ==> ListKey(unique[a]).Some?
    requires 0 <= i < j < |r|
    ensures r[i].id != r[j].id
  {
    assert r[i] in multiset(unique) && r[j] in multiset(unique);
    var a :| 0 <= a < |unique| && unique[a] == r[i];
    var b :| 0 <= b < |unique| && unique[b] == r[j];
    if a == b {
      OccursOnce(unique, a);
      TwoPositions(r, i, j);
    }
  }

  /** In a sequence with distinct keys, each element occurs once. */
  lemma {:induction false} OccursOnce(s: seq<ListRow>, a: int)
    requires forall x, y :: 0 <= x < y < |s| ==> ListKey(s[x]) != ListKey(s[y])
    requires 0 <= a < |s|
    ensures multiset(s)[s[a]] == 1
  {
    if |s| > 1 {
      var last := s[|s| - 1];
      var front := s[..|s| - 1];
      assert s == front + [last];
      if a == |s| - 1 {
        assert last !in front;
      } else {
        OccursOnce(front, a);
        assert s[a] != last by {
          assert ListKey(s[a]) != ListKey(s[|s| - 1]);
        }
      }
    }
  }

  lemma {:induction false} FirstWithKeyFound(xs: seq<ListRow>, key: ListRow -> Option<string>, o: ListRow)
    requires o in xs && key(o).Some?
    ensures FirstWithKey(xs, key, key(o).value).Some?
  {
    if xs[0] != o {
      FirstWithKeyFound(xs[1..], key, o);
    }
  }

  lemma {:induction false} FirstWithKeyMember(xs: seq<ListRow>, key: ListRow -> Option<string>, k: string)
    ensures FirstWithKey(xs, key, k).Some? ==> FirstWithKey(xs, key, k).value in xs
  {
    if xs != [] && key(xs[0]) != Some(k) {
      FirstWithKeyMember(xs[1..], key, k);
    }
  }
}
