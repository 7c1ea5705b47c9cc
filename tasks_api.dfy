/** The pure parts of the task service (src/services/api/tasks.ts): the
    task-id check that guards upserts, and the choice of the latest history
    entry. */
module TasksApi {
  import opened Common

  // ---------------------------------------------------------------------
  // UUID_REGEX: 8-4-4-4-12 hex digits, version 1-5, variant 8, 9, a or b,
  // matched ignoring case.

  predicate IsHex(c: char)
  {
    ('0' <= c <= '9') || ('a' <= c <= 'f') || ('A' <= c <= 'F')
  }

  predicate AllHex(s: string)
  {
    forall i :: 0 <= i < |s| ==> IsHex(s[i])
  }

  predicate IsVersionDigit(c: char)
  {
    '1' <= c <= '5'
  }

  predicate IsVariantDigit(c: char)
  {
    c == '8' || c == '9' || c == 'a' || c == 'b' || c == 'A' || c == 'B'
  }

  /** The regular expression read position by position. */
  predicate IsValidTaskId(s: string)
  {
    && |s| == 36
    && s[8] == '-' && s[13] == '-' && s[18] == '-' && s[23] == '-'
    && (forall i :: 0 <= i < 36 && i != 8 && i != 13 && i != 18 && i != 23 ==> IsHex(s[i]))
    && IsVersionDigit(s[14])
    && IsVariantDigit(s[19])
  }

  /** The five groups that make up a valid id. */
  predicate ValidGroups(g1: string, g2: string, g3: string, g4: string, g5: string)
  {
    && |g1| == 8 && |g2| == 4 && |g3| == 4 && |g4| == 4 && |g5| == 12
    && AllHex(g1) && AllHex(g2) && AllHex(g3) && AllHex(g4) && AllHex(g5)
    && IsVersionDigit(g3[0]) && IsVariantDigit(g4[0])
  }

  function JoinGroups(g1: string, g2: string, g3: string, g4: string, g5: string): string
  {
    g1 + "-" + g2 + "-" + g3 + "-" + g4 + "-" + g5
  }

  /** Joining five valid groups with dashes gives a valid id, and only
      valid groups do. */
  lemma JoinedGroupsValid(g1: string, g2: string, g3: string, g4: string, g5: string)
    requires |g1| == 8 && |g2| == 4 && |g3| == 4 && |g4| == 4 && |g5| == 12
    ensures IsValidTaskId(JoinGroups(g1, g2, g3, g4, g5)) <==> ValidGroups(g1, g2, g3, g4, g5)
  {
    var s := JoinGroups(g1, g2, g3, g4, g5);
    assert s[..8] == g1 && s[9..13] == g2 && s[14..18] == g3 && s[19..23] == g4 && s[24..] == g5;
    assert forall i :: 0 <= i < 8 ==> s[i] == g1[i];
    assert forall i :: 0 <= i < 4 ==> s[9 + i] == g2[i] && s[14 + i] == g3[i] && s[19 + i] == g4[i];
    assert forall i :: 0 <= i < 12 ==> s[24 + i] == g5[i];
    if ValidGroups(g1, g2, g3, g4, g5) {
      forall i | 0 <= i < 36 && i != 8 && i != 13 && i != 18 && i != 23 ensures IsHex(s[i]) {
        if i < 8 {
          assert IsHex(g1[i]);
        } else if i < 13 {
          assert IsHex(g2[i - 9]);
        } else if i < 18 {
          assert IsHex(g3[i - 14]);
        } else if i < 23 {
          assert IsHex(g4[i - 19]);
        } else {
          assert IsHex(g5[i - 24]);
        }
      }
    }
  }

  /** Every valid id is its own five groups joined with dashes. */
  lemma ValidIdSplits(s: string)
    requires IsValidTaskId(s)
    ensures ValidGroups(s[..8], s[9..13], s[14..18], s[19..23], s[24..])
    ensures s == JoinGroups(s[..8], s[9..13], s[14..18], s[19..23], s[24..])
  {
    assert s == s[..8] + [s[8]] + s[9..13] + [s[13]] + s[14..18] + [s[18]] + s[19..23] + [s[23]] + s[24..];
    JoinedGroupsValid(s[..8], s[9..13], s[14..18], s[19..23], s[24..]);
  }

  /** Upper- or lower-case hex digits are equally accepted. */
  lemma CaseInsensitive(s: string)
    requires |s| == 36
    ensures IsValidTaskId(s) <==> IsValidTaskId(Lower(s))
  {
    forall i | 0 <= i < 36 ensures IsHex(s[i]) <==> IsHex(Lower(s)[i]) {
    }
  }

  // ---------------------------------------------------------------------
  // upsertTaskRow

  /** A payload field's value, as far as the id check cares. */
  datatype Value = StringValue(s: string) | OtherValue

  /** The body sent to the upsert: a copy of the payload whose `id` is
      removed when it is a string that is not a valid id. */
  method UpsertBody(payload: map<string, Value>) returns (body: map<string, Value>)
    ensures forall k :: k != "id" ==> (k in body <==> k in payload)
    ensures forall k :: k != "id" && k in body ==> body[k] == payload[k]
    ensures "id" in body <==> "id" in payload && !(payload["id"].StringValue? && !IsValidTaskId(payload["id"].s))
    ensures "id" in body ==> body["id"] == payload["id"]
  {
    body := payload;
    if "id" in body && body["id"].StringValue? && !IsValidTaskId(body["id"].s) {
      body := body - {"id"};
    }
  }

  // ---------------------------------------------------------------------
  // fetchLatestHistory

  /** A task history row (only what the choice looks at). */
  datatype HistoryRow = HistoryRow(id: string, action: Option<string>)

  /** What the query may answer: an array, a single row, nothing, or an
      error. The rows are the history, newest first, before the query's
      limit is applied. */
  datatype HistoryResponse = Rows(rows: seq<HistoryRow>) | OneRow(row: HistoryRow) | NoData | QueryFailed

  /** Rows fetched: a handful when undo/redo entries are to be skipped,
      else only the newest. */
  function HistoryLimit(skipUndoRedo: bool): (n: nat)
    ensures skipUndoRedo ==> n == 20
    ensures !skipUndoRedo ==> n == 1
  {
    if skipUndoRedo then 20 else 1
  }

  /** An entry recording an undo or a redo. */
  predicate IsUndoRedo(row: HistoryRow)
  {
    row.action.Some? && (StartsWith(row.action.value, "undo_") || StartsWith(row.action.value, "redo_"))
  }

  function Entries(response: HistoryResponse): seq<HistoryRow>
  {
    match response
    case Rows(rows) => rows
    case OneRow(row) => [row]
    case _ => []
  }

  function DropUndoRedo(rows: seq<HistoryRow>): (r: seq<HistoryRow>)
    ensures forall row :: row in r <==> row in rows && !IsUndoRedo(row)
  {
    if rows == [] then []
    else (if IsUndoRedo(rows[0]) then [] else [rows[0]]) + DropUndoRedo(rows[1..])
  }

  /** `.limit(limit)`: only the newest `HistoryLimit` entries are fetched. */
  function Fetched(skipUndoRedo: bool, response: HistoryResponse): (r: seq<HistoryRow>)
    ensures |r| <= HistoryLimit(skipUndoRedo) && |r| <= |Entries(response)|
    ensures r == Entries(response)[..|r|]
    ensures |Entries(response)| <= HistoryLimit(skipUndoRedo) ==> r == Entries(response)
    ensures |Entries(response)| > HistoryLimit(skipUndoRedo) ==> |r| == HistoryLimit(skipUndoRedo)
  {
    var entries := Entries(response);
    var limit := HistoryLimit(skipUndoRedo);
    if |entries| <= limit then entries else entries[..limit]
  }

  /** The latest entry: none on error; else the first fetched entry, or,
      when skipping, the first fetched one that is not an undo or a redo. */
  function LatestHistory(skipUndoRedo: bool, response: HistoryResponse): (r: Option<HistoryRow>)
  {
    if response.QueryFailed? then None
    else
      var entries := Fetched(skipUndoRedo, response);
      var filtered := if skipUndoRedo then DropUndoRedo(entries) else entries;
      if filtered == [] then None else Some(filtered[0])
  }

  /** The first entry that is not an undo or a redo, with every entry before
      it one. */
  lemma {:induction false} FirstKeptEntry(rows: seq<HistoryRow>)
    ensures DropUndoRedo(rows) == [] <==> forall i :: 0 <= i < |rows| ==> IsUndoRedo(rows[i])
    ensures DropUndoRedo(rows) != [] ==>
              exists k :: 0 <= k < |rows| && rows[k] == DropUndoRedo(rows)[0] && !IsUndoRedo(rows[k])
                          && forall j :: 0 <= j < k ==> IsUndoRedo(rows[j])
  {
    if rows != [] {
      FirstKeptEntry(rows[1..]);
      if IsUndoRedo(rows[0]) {
        if DropUndoRedo(rows) != [] {
          var k :| 0 <= k < |rows[1..]| && rows[1..][k] == DropUndoRedo(rows[1..])[0] && !IsUndoRedo(rows[1..][k])
                   && forall j :: 0 <= j < k ==> IsUndoRedo(rows[1..][j]);
          assert forall j :: 0 <= j < k + 1 ==> IsUndoRedo(rows[j]) by {
            forall j | 0 <= j < k + 1 ensures IsUndoRedo(rows[j]) {
              if j > 0 {
                assert rows[j] == rows[1..][j - 1];
              }
            }
          }
          assert rows[k + 1] == DropUndoRedo(rows)[0];
        } else {
          forall i | 0 <= i < |rows| ensures IsUndoRedo(rows[i]) {
            if i > 0 {
              assert rows[i] == rows[1..][i - 1];
            }
          }
        }
      }
    }
  }

  /** What `fetchLatestHistory` returns: nothing on error; without skipping
      the newest entry; with skipping the first entry among the newest 20
      that is not an undo or a redo, after only undo and redo entries, and
      nothing when all of those 20 are undo or redo entries. */
  lemma LatestHistorySpec(skipUndoRedo: bool, response: HistoryResponse)
    ensures response.QueryFailed? ==> LatestHistory(skipUndoRedo, response).None?
    ensures !skipUndoRedo && !response.QueryFailed? ==>
              LatestHistory(skipUndoRedo, response) == (if Entries(response) == [] then None else Some(Entries(response)[0]))
    ensures skipUndoRedo && !response.QueryFailed? ==>
              var entries := Entries(response);
              var n := if |entries| <= 20 then |entries| else 20;
              var r := LatestHistory(skipUndoRedo, response);
              && (r.None? <==> forall i :: 0 <= i < n ==> IsUndoRedo(entries[i]))
              && (r.Some? ==> (!IsUndoRedo(r.value)
                                && exists k :: 0 <= k < n && entries[k] == r.value
                                               && forall j :: 0 <= j < k ==> IsUndoRedo(entries[j])))
  {
    if !response.QueryFailed? {
      var entries := Entries(response);
      var fetched := Fetched(skipUndoRedo, response);
      if skipUndoRedo {
        var n := if |entries| <= 20 then |entries| else 20;
        assert |fetched| == n;
        assert forall i :: 0 <= i < n ==> fetched[i] == entries[i];
        FirstKeptEntry(fetched);
      } else if entries != [] {
        assert fetched[0] == entries[0];
      }
    }
  }

  /** Twenty undo entries hide an older ordinary entry: the ordinary entry is
      never fetched, so the answer is null. */
  lemma TwentyUndosHideOlderEntry()
    ensures var rows := seq(20, _ => HistoryRow("u", Some("undo_update"))) + [HistoryRow("t", Some("update"))];
            && DropUndoRedo(rows) != []
            && LatestHistory(true, Rows(rows)).None?
  {
    var undo := HistoryRow("u", Some("undo_update"));
    var rows := seq(20, _ => undo) + [HistoryRow("t", Some("update"))];
    assert IsUndoRedo(undo);
    assert rows[20].action.value[..5][1] == 'p';
    assert !IsUndoRedo(rows[20]);
    FirstKeptEntry(rows);
    var fetched := Fetched(true, Rows(rows));
    assert fetched == rows[..20];
    FirstKeptEntry(fetched);
  }
}
