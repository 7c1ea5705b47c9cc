/** Assignee profiles (src/features/planner/hooks/useAssigneeProfiles.ts):
    seeds gathered from cached task rows, the sorted id list the profile
    query asks for, and the merge of the fetched display names. */
module AssigneeProfiles {
  import opened Common
  import opened Sorting

  /** `AssigneeProfile` */
  datatype AssigneeProfile = AssigneeProfile(displayName: Option<string>, email: Option<string>)

  /** The assignee columns of a cached task row (`TaskWindowRow`). */
  datatype TaskWindowRow = TaskWindowRow(assigneeId: Option<string>, assigneeDisplayName: Option<string>, assigneeEmail: Option<string>)

  /** A fetched `profiles` row. */
  datatype ProfileRow = ProfileRow(userId: string, displayName: Option<string>)

  // ---------------------------------------------------------------------
  // collectAssigneeSeeds

  /** The seeds of a run of rows: per assignee id, each field as the last
      row that gave it a value left it. */
  function Seeds(rows: seq<TaskWindowRow>): map<string, AssigneeProfile>
  {
    if rows == [] then map[]
    else
      var m := Seeds(rows[..|rows| - 1]);
      var row := rows[|rows| - 1];
      if !Truthy(row.assigneeId) then m
      else
        var id := row.assigneeId.value;
        var existing := if id in m then m[id] else AssigneeProfile(None, None);
        m[id := AssigneeProfile(Coalesce(row.assigneeDisplayName, existing.displayName),
                                Coalesce(row.assigneeEmail, existing.email))]
  }

  datatype Field = DisplayNameField | EmailField

  function FieldOf(row: TaskWindowRow, f: Field): Option<string>
  {
    match f
    case DisplayNameField => row.assigneeDisplayName
    case EmailField => row.assigneeEmail
  }

  /** Reference definition: the value of field `f` in the last row for `id`
      that has one. */
  function LastGiven(rows: seq<TaskWindowRow>, id: string, f: Field): (r: Option<string>)
    ensures r.Some? ==> exists i :: 0 <= i < |rows| && rows[i].assigneeId == Some(id) && FieldOf(rows[i], f) == r
  {
    if rows == [] then None
    else
      var row := rows[|rows| - 1];
      if row.assigneeId == Some(id) && FieldOf(row, f).Some? then FieldOf(row, f)
      else
        var r := LastGiven(rows[..|rows| - 1], id, f);
        assert forall i :: 0 <= i < |rows| - 1 ==> rows[..|rows| - 1][i] == rows[i];
        r
  }

  /** The seeds hold exactly the non-empty assignee ids, and each entry's
      fields are the last non-null values given for that id. */
  lemma {:induction false} SeedsSpec(rows: seq<TaskWindowRow>)
    ensures forall id :: id in Seeds(rows) <==> id != "" && exists i :: 0 <= i < |rows| && rows[i].assigneeId == Some(id)
    ensures forall id :: id in Seeds(rows) ==>
              Seeds(rows)[id] == AssigneeProfile(LastGiven(rows, id, DisplayNameField), LastGiven(rows, id, EmailField))
  {
    if rows != [] {
      var front := rows[..|rows| - 1];
      SeedsSpec(front);
      assert forall i :: 0 <= i < |front| ==> front[i] == rows[i];
    }
  }

  /** The `forEach` that fills the seed map (`rows ?? []`). */
  method CollectAssigneeSeeds(rows: Option<seq<TaskWindowRow>>) returns (m: map<string, AssigneeProfile>)
    ensures m == Seeds(Coalesce(rows, Some([])).value)
  {
    var xs := Coalesce(rows, Some([])).value;
    m := map[];
    for i := 0 to |xs|
      invariant m == Seeds(xs[..i])
    {
      assert xs[..i + 1][..i] == xs[..i];
      var row := xs[i];
      if !Truthy(row.assigneeId) {
        continue;
      }
      var id := row.assigneeId.value;
      var existing := if id in m then m[id] else AssigneeProfile(None, None);
      m := m[id := AssigneeProfile(Coalesce(row.assigneeDisplayName, existing.displayName),
                                   Coalesce(row.assigneeEmail, existing.email))];
    }
    assert xs[..|xs|] == xs;
  }

  // ---------------------------------------------------------------------
  // seededProfiles

  function SourceSeeds(rows: Option<seq<TaskWindowRow>>): map<string, AssigneeProfile>
  {
    Seeds(Coalesce(rows, Some([])).value)
  }

  /** `Object.assign` of each source's seeds in turn. */
  function SeededProfiles(sources: seq<Option<seq<TaskWindowRow>>>): map<string, AssigneeProfile>
  {
    if sources == [] then map[]
    else SeededProfiles(sources[..|sources| - 1]) + SourceSeeds(sources[|sources| - 1])
  }

  /** An id is seeded iff some source seeds it, and its entry is the whole
      entry of the last source that does: later sources replace entries,
      they do not merge fields. */
  lemma {:induction false} LaterSourceWins(sources: seq<Option<seq<TaskWindowRow>>>, id: string)
    ensures id in SeededProfiles(sources) <==> exists j :: 0 <= j < |sources| && id in SourceSeeds(sources[j])
    ensures id in SeededProfiles(sources) ==>
              exists j :: 0 <= j < |sources| && id in SourceSeeds(sources[j])
                          && SeededProfiles(sources)[id] == SourceSeeds(sources[j])[id]
                          && forall k :: j < k < |sources| ==> id !in SourceSeeds(sources[k])
  {
    if sources != [] {
      var front := sources[..|sources| - 1];
      var n := |sources| - 1;
      LaterSourceWins(front, id);
      assert forall j :: 0 <= j < |front| ==> front[j] == sources[j];
      if id !in SourceSeeds(sources[n]) && id in SeededProfiles(front) {
        var j :| 0 <= j < |front| && id in SourceSeeds(front[j])
                 && SeededProfiles(front)[id] == SourceSeeds(front[j])[id]
                 && forall k :: j < k < |front| ==> id !in SourceSeeds(front[k]);
        assert forall k :: j < k < |sources| ==> id !in SourceSeeds(sources[k]) by {
          forall k | j < k < |sources| ensures id !in SourceSeeds(sources[k]) {
            if k < n {
              assert id !in SourceSeeds(front[k]);
            }
          }
        }
      }
    }
  }

  /** The loop over the task sources. */
  method SeedProfiles(sources: seq<Option<seq<TaskWindowRow>>>) returns (seeds: map<string, AssigneeProfile>)
    ensures seeds == SeededProfiles(sources)
  {
    seeds := map[];
    for i := 0 to |sources|
      invariant seeds == SeededProfiles(sources[..i])
    {
      assert sources[..i + 1][..i] == sources[..i];
      var collected := CollectAssigneeSeeds(sources[i]);
      seeds := seeds + collected;
    }
    assert sources[..|sources|] == sources;
  }

  // ---------------------------------------------------------------------
  // assigneeIds and the query's `enabled` flag

  /** The ids asked for: the seeded ids and the non-empty extra ids. */
  function AssigneeIdSet(seeds: map<string, AssigneeProfile>, extras: seq<Option<string>>): set<string>
  {
    seeds.Keys + set o | o in extras && Truthy(o) :: o.value
  }

  /** The `Set` of ids: the seeded ids, then each truthy extra id. */
  method CollectIds(seeds: map<string, AssigneeProfile>, extras: seq<Option<string>>) returns (idSet: set<string>)
    ensures idSet == AssigneeIdSet(seeds, extras)
  {
    idSet := seeds.Keys;
    for i := 0 to |extras|
      invariant idSet == AssigneeIdSet(seeds, extras[..i])
    {
      assert extras[..i + 1] == extras[..i] + [extras[i]];
      if Truthy(extras[i]) {
        idSet := idSet + {extras[i].value};
      }
    }
    assert extras[..|extras|] == extras;
  }

  /** `Array.from(set)`: the set's elements once each, in any order (the
      sort that follows fixes the order). */
  method SetToSeq(s: set<string>) returns (r: seq<string>)
    ensures forall x :: x in r <==> x in s
    ensures Distinct(r)
  {
    r := [];
    var rest := s;
    while rest != {}
      invariant forall x :: x in s <==> x in r || x in rest
      invariant forall x :: x in r ==> x !in rest
      invariant Distinct(r)
      decreases |rest|
    {
      var x :| x in rest;
      r := r + [x];
      rest := rest - {x};
    }
  }

  /** `assigneeIds`: every seeded or extra id once, in ascending
      character order; the query runs iff there is one. */
  method AssigneeIds(seeds: map<string, AssigneeProfile>, extraAssigneeIds: Option<seq<Option<string>>>) returns (ids: seq<string>)
    ensures forall x :: x in ids <==> x in AssigneeIdSet(seeds, Coalesce(extraAssigneeIds, Some([])).value)
    ensures forall i, j :: 0 <= i < j < |ids| ==> StringLe(ids[i], ids[j]) && ids[i] != ids[j]
    ensures |ids| > 0 <==> |AssigneeIdSet(seeds, Coalesce(extraAssigneeIds, Some([])).value)| > 0
  {
    var extras := Coalesce(extraAssigneeIds, Some([])).value;
    var idSet := CollectIds(seeds, extras);
    var unsorted := SetToSeq(idSet);
    ids := SortBy(unsorted, StringLe);
    SortedIds(unsorted);
    AnyAssigneeId(seeds, extras);
    if |ids| > 0 {
      assert ids[0] in idSet;
    }
    if |idSet| > 0 {
      var x :| x in idSet;
      assert x in ids;
    }
  }

  /** Sorting ids that occur once each orders them strictly and keeps
      them all. */
  lemma SortedIds(unsorted: seq<string>)
    requires Distinct(unsorted)
    ensures forall x :: x in SortBy(unsorted, StringLe) <==> x in unsorted
    ensures forall i, j :: 0 <= i < j < |SortBy(unsorted, StringLe)| ==>
              StringLe(SortBy(unsorted, StringLe)[i], SortBy(unsorted, StringLe)[j])
              && SortBy(unsorted, StringLe)[i] != SortBy(unsorted, StringLe)[j]
  {
    var ids := SortBy(unsorted, StringLe);
    StringLeIsTotalPreorder();
    SortBySpec(unsorted, StringLe);
    PermutationKeepsDistinct(unsorted, ids);
    forall x ensures x in ids <==> x in unsorted {
      assert x in ids <==> x in multiset(ids);
      assert x in unsorted <==> x in multiset(unsorted);
    }
  }

  /** There is an id to ask for iff some id is seeded or some extra id is
      non-empty. */
  lemma AnyAssigneeId(seeds: map<string, AssigneeProfile>, extras: seq<Option<string>>)
    ensures |AssigneeIdSet(seeds, extras)| > 0 <==> |seeds| > 0 || exists o :: o in extras && Truthy(o)
  {
    if |seeds| > 0 {
      var k :| k in seeds.Keys;
      assert k in AssigneeIdSet(seeds, extras);
    }
    if o :| o in extras && Truthy(o) {
      assert o.value in AssigneeIdSet(seeds, extras);
    }
  }

  // ---------------------------------------------------------------------
  // queryFn

  /** Reference definition: the last non-null fetched display name for
      `id`. */
  function LastFetchedName(rows: seq<ProfileRow>, id: string): (r: Option<string>)
    ensures r.Some? ==> exists i :: 0 <= i < |rows| && rows[i].userId == id && rows[i].displayName == r
  {
    if rows == [] then None
    else
      var row := rows[|rows| - 1];
      if row.userId == id && row.displayName.Some? then row.displayName
      else
        var r := LastFetchedName(rows[..|rows| - 1], id);
        assert forall i :: 0 <= i < |rows| - 1 ==> rows[..|rows| - 1][i] == rows[i];
        r
  }

  /** The map the query returns: the seeds, each fetched row overwriting
      its id's entry. */
  function MergeFetched(seeds: map<string, AssigneeProfile>, rows: seq<ProfileRow>): map<string, AssigneeProfile>
  {
    if rows == [] then seeds
    else
      var m := MergeFetched(seeds, rows[..|rows| - 1]);
      var row := rows[|rows| - 1];
      var existing := if row.userId in m then Some(m[row.userId]) else None;
      m[row.userId := AssigneeProfile(
          Coalesce(row.displayName, if existing.Some? then existing.value.displayName else None),
          if existing.Some? then existing.value.email else None)]
  }

  /** The fetched map covers the seeded and the fetched ids; a fetched
      display name wins when non-null, the seed's otherwise; the e-mail is
      always the seed's. */
  lemma {:induction false} MergeFetchedSpec(seeds: map<string, AssigneeProfile>, rows: seq<ProfileRow>)
    ensures forall id :: id in MergeFetched(seeds, rows) <==> id in seeds || exists i :: 0 <= i < |rows| && rows[i].userId == id
    ensures forall id :: id in MergeFetched(seeds, rows) ==>
              MergeFetched(seeds, rows)[id].email == (if id in seeds then seeds[id].email else None)
    ensures forall id :: id in MergeFetched(seeds, rows) ==>
              MergeFetched(seeds, rows)[id].displayName
              == Coalesce(LastFetchedName(rows, id), if id in seeds then seeds[id].displayName else None)
  {
    if rows != [] {
      var front := rows[..|rows| - 1];
      MergeFetchedSpec(seeds, front);
      assert forall i :: 0 <= i < |front| ==> front[i] == rows[i];
    }
  }

  /** The `forEach` over the fetched rows (`data ?? []`). */
  method QueryProfiles(seeds: map<string, AssigneeProfile>, data: Option<seq<ProfileRow>>) returns (profiles: map<string, AssigneeProfile>)
    ensures profiles == MergeFetched(seeds, Coalesce(data, Some([])).value)
  {
    var rows := Coalesce(data, Some([])).value;
    profiles := seeds;
    for i := 0 to |rows|
      invariant profiles == MergeFetched(seeds, rows[..i])
    {
      assert rows[..i + 1][..i] == rows[..i];
      var row := rows[i];
      var existing := if row.userId in profiles then Some(profiles[row.userId]) else None;
      profiles := profiles[row.userId := AssigneeProfile(
        Coalesce(row.displayName, if existing.Some? then existing.value.displayName else None),
        if existing.Some? then existing.value.email else None)];
    }
    assert rows[..|rows|] == rows;
  }
}
