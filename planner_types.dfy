/** The records the planner core reads. Only the fields the modelled code
    looks at are kept; a JavaScript `null`/`undefined` field is None. */
module PlannerTypes {
  import opened Common

  /** A task as stored locally (`LocalTask`). */
  datatype Task = Task(
    id: string,
    listId: Option<string>,
    title: string,
    dueDate: Option<string>,
    plannedStart: Option<string>,
    plannedEnd: Option<string>,
    estimateMinutes: Option<int>)

  /** A list row (`ListRow`, `RemoteList`). An empty `id` stands for a row
      whose id is missing. */
  datatype ListRow = ListRow(
    id: string,
    userId: string,
    name: Option<string>,
    sortIndex: Option<int>,
    isSystem: bool)

  /** `lists.find((item) => item.id === listId)`: the first list with that
      id. */
  function FindList(lists: seq<ListRow>, listId: string): (r: Option<ListRow>)
    ensures r.Some? ==> r.value in lists && r.value.id == listId
    ensures r.None? <==> forall l :: l in lists ==> l.id != listId
  {
    if lists == [] then None
    else if lists[0].id == listId then Some(lists[0])
    else FindList(lists[1..], listId)
  }

  /** The list found is the earliest one carrying the id. */
  lemma {:induction false} FindListFirstMatch(lists: seq<ListRow>, listId: string)
    ensures FindList(lists, listId).Some? ==>
              exists i :: 0 <= i < |lists| && FindList(lists, listId) == Some(lists[i])
                          && forall j :: 0 <= j < i ==> lists[j].id != listId
  {
    if lists != [] && lists[0].id != listId && FindList(lists, listId).Some? {
      FindListFirstMatch(lists[1..], listId);
      var i :| 0 <= i < |lists[1..]| && FindList(lists[1..], listId) == Some(lists[1..][i])
               && forall j :: 0 <= j < i ==> lists[1..][j].id != listId;
      assert FindList(lists, listId) == Some(lists[i + 1]);
      forall j | 0 <= j < i + 1
        ensures lists[j].id != listId
      {
        if j > 0 { assert lists[j] == lists[1..][j - 1]; }
      }
    }
  }
}
