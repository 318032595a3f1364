/**
  The "next matches" preview of the leaderboard: which of the upcoming candidate
  matches are shown, and for each participant one prediction slot per shown match,
  in match order, holding the stored scores or a null pair.
*/
module Preview {
  import opened Wrappers
  import opened Constants
  import opened Schema
  import opened Sequences

  // ---------------------------------------------------------------------------
  // selection of the matches to show
  // ---------------------------------------------------------------------------

  predicate IsLive(m: Match) {
    m.status == Some(Live)
  }

  predicate ScheduledOn(m: Match, date: int) {
    m.matchDate == date && m.status == Some(Scheduled)
  }

  predicate HasLive(candidates: seq<Match>) {
    exists i :: 0 <= i < |candidates| && IsLive(candidates[i])
  }

  /**
    The matches to show, from the upcoming candidates in query order: the live ones
    if there are any, otherwise the scheduled ones dated like the first candidate.
  */
  function SelectPreview(candidates: seq<Match>): (r: seq<Match>)
    ensures forall m :: m in r ==> m in candidates
    ensures HasLive(candidates) ==> forall m :: m in r <==> m in candidates && IsLive(m)
    ensures !HasLive(candidates) && candidates != [] ==>
              forall m :: m in r <==> m in candidates && ScheduledOn(m, candidates[0].matchDate)
    ensures candidates == [] ==> r == []
  {
    var live := Filter(candidates, IsLive);
    if live != [] then
      assert HasLive(candidates) by {
        assert live[0] in live;
        var i :| 0 <= i < |candidates| && candidates[i] == live[0];
      }
      live
    else if candidates == [] then []
    else Filter(candidates, (m: Match) => ScheduledOn(m, candidates[0].matchDate))
  }

  /** The shown matches keep the candidates' order. */
  lemma SelectPreviewIsSubsequence(candidates: seq<Match>)
    ensures IsSubsequence(SelectPreview(candidates), candidates)
  {
    FilterIsSubsequence(candidates, IsLive);
    if candidates != [] {
      FilterIsSubsequence(candidates, (m: Match) => ScheduledOn(m, candidates[0].matchDate));
    }
  }

  /**
    The candidates are the live and scheduled matches, so when none is live the
    first candidate is scheduled and is shown: a non-empty candidate list always
    shows something.
  */
  lemma SelectPreviewNonEmpty(candidates: seq<Match>)
    requires forall i :: 0 <= i < |candidates| ==> candidates[i].status in {Some(Live), Some(Scheduled)}
    requires candidates != []
    ensures SelectPreview(candidates) != []
    ensures !HasLive(candidates) ==> SelectPreview(candidates)[0] == candidates[0]
  {
    if !HasLive(candidates) {
      assert !IsLive(candidates[0]);
      assert ScheduledOn(candidates[0], candidates[0].matchDate);
      var r := Filter(candidates, (m: Match) => ScheduledOn(m, candidates[0].matchDate));
      assert r == [candidates[0]] + Filter(candidates[1..], (m: Match) => ScheduledOn(m, candidates[0].matchDate));
    }
  }

  function MatchIds(ms: seq<Match>): (ids: seq<int>)
    ensures |ids| == |ms|
    ensures forall i :: 0 <= i < |ms| ==> ids[i] == ms[i].id
  {
    seq(|ms|, i requires 0 <= i < |ms| => ms[i].id)
  }

  // ---------------------------------------------------------------------------
  // predictions grouped by participant
  // ---------------------------------------------------------------------------

  /** A prediction as grouped for the preview: match and scores. */
  datatype PredictionEntry = PredictionEntry(matchId: int, homeScore: int, awayScore: int)

  function EntryOf(r: PredictionRow): PredictionEntry {
    PredictionEntry(r.matchId, r.homeScore, r.awayScore)
  }

  /** The predictions of the shown matches (`inArray(matchId, matchIds)`), in table order. */
  function NextPredictions(rows: seq<PredictionRow>, matchIds: seq<int>): seq<PredictionRow> {
    Filter(rows, (r: PredictionRow) => r.matchId in matchIds)
  }

  /** The entries of one participant's rows, in row order. */
  function EntriesOf(rows: seq<PredictionRow>, participantId: int): seq<PredictionEntry> {
    if rows == [] then []
    else (if rows[0].participantId == participantId then [EntryOf(rows[0])] else []) + EntriesOf(rows[1..], participantId)
  }

  lemma {:induction false} EntriesOfSnoc(rows: seq<PredictionRow>, row: PredictionRow, participantId: int)
    ensures EntriesOf(rows + [row], participantId)
            == EntriesOf(rows, participantId) + (if row.participantId == participantId then [EntryOf(row)] else [])
  {
    if rows != [] {
      assert (rows + [row])[1..] == rows[1..] + [row];
      EntriesOfSnoc(rows[1..], row, participantId);
    }
  }

  /** The list of a participant, or the empty list (`get(id) || []`). */
  function GroupOf(g: map<int, seq<PredictionEntry>>, participantId: int): seq<PredictionEntry> {
    if participantId in g then g[participantId] else []
  }

  /** Some row of the table belongs to the participant. */
  predicate HasRowOf(rows: seq<PredictionRow>, participantId: int) {
    exists i :: 0 <= i < |rows| && rows[i].participantId == participantId
  }

  /** Grouping by participant: one list per participant, each row's entry pushed in row order. */
  function GroupByParticipant(rows: seq<PredictionRow>): map<int, seq<PredictionEntry>>
    decreases |rows|
  {
    if rows == [] then map[]
    else
      var g := GroupByParticipant(rows[..|rows| - 1]);
      var row := rows[|rows| - 1];
      g[row.participantId := GroupOf(g, row.participantId) + [EntryOf(row)]]
  }

  /**
    A participant has a list exactly when some row is theirs, and the list holds
    their rows' entries in row order.
  */
  lemma {:induction false} GroupByParticipantSpec(rows: seq<PredictionRow>)
    ensures var g := GroupByParticipant(rows);
            && (forall pid :: pid in g <==> HasRowOf(rows, pid))
            && (forall pid :: pid in g ==> g[pid] == EntriesOf(rows, pid))
    decreases |rows|
  {
    if rows != [] {
      var init := rows[..|rows| - 1];
      var row := rows[|rows| - 1];
      GroupByParticipantSpec(init);
      var g := GroupByParticipant(init);
      assert g == GroupByParticipant(rows[..|rows| - 1]);
      assert forall pid :: pid in GroupByParticipant(init) ==> HasRowOf(init, pid);
      var r := GroupByParticipant(rows);
      assert rows == init + [row];
      forall pid ensures pid in r <==> HasRowOf(rows, pid) {
        if pid in g {
          assert HasRowOf(init, pid);
          var i :| 0 <= i < |init| && init[i].participantId == pid;
          assert rows[i] == init[i];
        }
        if HasRowOf(rows, pid) {
          var i :| 0 <= i < |rows| && rows[i].participantId == pid;
          if i < |init| {
            assert init[i] == rows[i];
          }
        }
      }
      forall pid | pid in r ensures r[pid] == EntriesOf(rows, pid) {
        EntriesOfSnoc(init, row, pid);
        if pid !in g {
          EntriesOfEmpty(init, pid);
        }
      }
    }
  }

  lemma {:induction false} EntriesOfEmpty(rows: seq<PredictionRow>, participantId: int)
    requires !HasRowOf(rows, participantId)
    ensures EntriesOf(rows, participantId) == []
  {
    if rows != [] {
      EntriesOfEmpty(rows[1..], participantId);
    }
  }

  /** The first entry for a match (`Array.prototype.find`). */
  function FindEntry(entries: seq<PredictionEntry>, matchId: int): (r: Option<PredictionEntry>)
    ensures r.Some? ==> r.value.matchId == matchId
  {
    if entries == [] then None
    else if entries[0].matchId == matchId then Some(entries[0])
    else FindEntry(entries[1..], matchId)
  }

  /** The first row of the table for a participant and a match. */
  function FirstRow(rows: seq<PredictionRow>, participantId: int, matchId: int): (r: Option<PredictionRow>)
    ensures r.None? <==> forall i :: 0 <= i < |rows| ==> KeyOf(rows[i]) != PredictionKey(participantId, matchId)
    ensures r.Some? ==> exists i :: 0 <= i < |rows| && rows[i] == r.value && KeyOf(rows[i]) == PredictionKey(participantId, matchId)
  {
    if rows == [] then None
    else if KeyOf(rows[0]) == PredictionKey(participantId, matchId) then Some(rows[0])
    else
      var r := FirstRow(rows[1..], participantId, matchId);
      assert forall i :: 1 <= i < |rows| ==> rows[i] == rows[1..][i - 1];
      r
  }

  lemma {:induction false} FindEntryOfEntries(rows: seq<PredictionRow>, participantId: int, matchId: int)
    ensures FindEntry(EntriesOf(rows, participantId), matchId)
            == (match FirstRow(rows, participantId, matchId) case None => None case Some(row) => Some(EntryOf(row)))
  {
    if rows != [] {
      FindEntryOfEntries(rows[1..], participantId, matchId);
      if rows[0].participantId == participantId {
        assert EntriesOf(rows, participantId) == [EntryOf(rows[0])] + EntriesOf(rows[1..], participantId);
        assert EntriesOf(rows, participantId)[1..] == EntriesOf(rows[1..], participantId);
      } else {
        assert EntriesOf(rows, participantId) == EntriesOf(rows[1..], participantId);
      }
    }
  }

  /** Restricting the table to the shown matches does not change the first row for a shown match. */
  lemma {:induction false} FirstRowOfNextPredictions(rows: seq<PredictionRow>, matchIds: seq<int>, participantId: int, matchId: int)
    requires matchId in matchIds
    ensures FirstRow(NextPredictions(rows, matchIds), participantId, matchId) == FirstRow(rows, participantId, matchId)
  {
    if rows != [] {
      FirstRowOfNextPredictions(rows[1..], matchIds, participantId, matchId);
      var next := NextPredictions(rows, matchIds);
      if rows[0].matchId in matchIds {
        assert next == [rows[0]] + NextPredictions(rows[1..], matchIds);
        assert next[1..] == NextPredictions(rows[1..], matchIds);
      } else {
        assert next == NextPredictions(rows[1..], matchIds);
      }
    }
  }

  // ---------------------------------------------------------------------------
  // padding
  // ---------------------------------------------------------------------------

  /** A preview slot: the participant's scores for a shown match, or a null pair. */
  datatype PreviewPrediction = PreviewPrediction(matchId: int, homeScore: Option<int>, awayScore: Option<int>)

  /** One slot per shown match, in match order: the first prediction found, else a null pair. */
  function PadPredictions(entries: seq<PredictionEntry>, matchIds: seq<int>): (r: seq<PreviewPrediction>)
    ensures |r| == |matchIds|
    ensures forall i :: 0 <= i < |matchIds| ==> r[i].matchId == matchIds[i]
    ensures forall i :: 0 <= i < |matchIds| ==> (r[i].homeScore.Some? <==> r[i].awayScore.Some?)
  {
    seq(|matchIds|, i requires 0 <= i < |matchIds| =>
      match FindEntry(entries, matchIds[i])
      case Some(e) => PreviewPrediction(e.matchId, Some(e.homeScore), Some(e.awayScore))
      case None => PreviewPrediction(matchIds[i], None, None))
  }

  /** The preview slots of one participant, built the way the leaderboard does. */
  function PreviewRow(rows: seq<PredictionRow>, matchIds: seq<int>, participantId: int): seq<PreviewPrediction> {
    PadPredictions(GroupOf(GroupByParticipant(NextPredictions(rows, matchIds)), participantId), matchIds)
  }

  /**
    Slot `i` of a participant's preview holds the scores of their first row for
    the i-th shown match, and a null pair when they have no such row.
  */
  lemma PreviewRowSpec(rows: seq<PredictionRow>, matchIds: seq<int>, participantId: int)
    ensures |PreviewRow(rows, matchIds, participantId)| == |matchIds|
    ensures forall i :: 0 <= i < |matchIds| ==>
              PreviewRow(rows, matchIds, participantId)[i]
                == match FirstRow(rows, participantId, matchIds[i])
                   case None => PreviewPrediction(matchIds[i], None, None)
                   case Some(row) => PreviewPrediction(matchIds[i], Some(row.homeScore), Some(row.awayScore))
  {
    var next := NextPredictions(rows, matchIds);
    var g := GroupByParticipant(next);
    var entries := GroupOf(g, participantId);
    assert entries == EntriesOf(next, participantId) by {
      GroupByParticipantSpec(next);
      if participantId !in g {
        EntriesOfEmpty(next, participantId);
      }
    }
    forall i | 0 <= i < |matchIds|
      ensures PreviewRow(rows, matchIds, participantId)[i]
                == match FirstRow(rows, participantId, matchIds[i])
                   case None => PreviewPrediction(matchIds[i], None, None)
                   case Some(row) => PreviewPrediction(matchIds[i], Some(row.homeScore), Some(row.awayScore))
    {
      FindEntryOfEntries(next, participantId, matchIds[i]);
      FirstRowOfNextPredictions(rows, matchIds, participantId, matchIds[i]);
    }
  }

  /**
    Over a listing of the store, slot `i` holds the participant's stored prediction
    for the i-th shown match, or a null pair when the store has none.
  */
  lemma PreviewRowFromStore(rows: seq<PredictionRow>, predictions: map<PredictionKey, Prediction>, matchIds: seq<int>, participantId: int)
    requires ListsTable(rows, predictions)
    ensures forall i :: 0 <= i < |matchIds| ==>
              var key := PredictionKey(participantId, matchIds[i]);
              PreviewRow(rows, matchIds, participantId)[i]
                == if key in predictions
                   then PreviewPrediction(matchIds[i], Some(predictions[key].homeScore), Some(predictions[key].awayScore))
                   else PreviewPrediction(matchIds[i], None, None)
  {
    PreviewRowSpec(rows, matchIds, participantId);
    forall i | 0 <= i < |matchIds|
      ensures var key := PredictionKey(participantId, matchIds[i]);
              PreviewRow(rows, matchIds, participantId)[i]
                == if key in predictions
                   then PreviewPrediction(matchIds[i], Some(predictions[key].homeScore), Some(predictions[key].awayScore))
                   else PreviewPrediction(matchIds[i], None, None)
    {
      var key := PredictionKey(participantId, matchIds[i]);
      var first := FirstRow(rows, participantId, matchIds[i]);
      if key in predictions {
        var j :| 0 <= j < |rows| && KeyOf(rows[j]) == key;
        assert first.Some?;
        var k :| 0 <= k < |rows| && rows[k] == first.value && KeyOf(rows[k]) == key;
        assert rows[k] == RowOf(key, predictions[key]);
      } else {
        assert first.None?;
      }
    }
  }
}
