/**
  `getPredictionsData`: every row of the predictions table is put into a record
  keyed by `${matchId}-${participantId}`, in table order, with null points shown
  as 0. The grid looks predictions up in this record.
*/
module PredictionsMap {
  import opened Wrappers
  import opened Text
  import opened Schema

  /** The grid's view of a prediction: points is always a number. */
  datatype GridPrediction = GridPrediction(participantId: int, matchId: int, homeScore: int, awayScore: int, points: int)

  /** `${matchId}-${participantId}`. */
  function GridKey(matchId: int, participantId: int): string {
    IntToString(matchId) + "-" + IntToString(participantId)
  }

  /** Reads a key of two non-negative ids back; `None` when it is not one. */
  function ParseGridKey(key: string): Option<(int, int)> {
    var parts := Split(key, '-');
    if |parts| != 2 then None
    else match (ParseInt(parts[0]), ParseInt(parts[1]))
      case (Some(m), Some(p)) => Some((m, p))
      case _ => None
  }

  lemma NoDash(n: nat)
    ensures '-' !in IntToString(n)
  {
    var s := IntToString(n);
    forall i | 0 <= i < |s| ensures s[i] != '-' {
      assert IsDigit(s[i]);
    }
  }

  /** A key of non-negative ids reads back as the ids it was built from. */
  lemma GridKeyRoundTrip(matchId: nat, participantId: nat)
    ensures ParseGridKey(GridKey(matchId, participantId)) == Some((matchId, participantId))
  {
    var a, b := IntToString(matchId), IntToString(participantId);
    NoDash(matchId);
    NoDash(participantId);
    assert Join([a, b], '-') == GridKey(matchId, participantId);
    SplitJoin([a, b], '-');
    ParseIntRoundTrip(matchId);
    ParseIntRoundTrip(participantId);
  }

  /** Distinct (match, participant) pairs of non-negative ids get distinct keys. */
  lemma GridKeyInjective(m1: nat, p1: nat, m2: nat, p2: nat)
    requires GridKey(m1, p1) == GridKey(m2, p2)
    ensures m1 == m2 && p1 == p2
  {
    GridKeyRoundTrip(m1, p1);
    GridKeyRoundTrip(m2, p2);
  }

  function RowKey(r: PredictionRow): string {
    GridKey(r.matchId, r.participantId)
  }

  /**
    A row's entry. `pred.points || 0` is `GetOr(0)`: null becomes 0 and a number is
    kept, since the only falsy number an integer column holds is 0, and `0 || 0` is 0.
  */
  function EntryOf(r: PredictionRow): GridPrediction {
    GridPrediction(r.participantId, r.matchId, r.homeScore, r.awayScore, r.points.GetOr(0))
  }

  /** The rows' keys, in table order. */
  function RowKeys(rows: seq<PredictionRow>): (keys: seq<string>)
    ensures |keys| == |rows|
    ensures forall i :: 0 <= i < |rows| ==> keys[i] == RowKey(rows[i])
    decreases |rows|
  {
    if rows == [] then [] else RowKeys(rows[..|rows| - 1]) + [RowKey(rows[|rows| - 1])]
  }

  /**
    The `forEach` over the table: each row is stored under its key, a later row
    overwriting an earlier one; the record's keys are exactly the rows' keys.
  */
  function BuildPredictionsMap(rows: seq<PredictionRow>): (r: map<string, GridPrediction>)
    ensures forall key :: key in r <==> key in RowKeys(rows)
    decreases |rows|
  {
    if rows == [] then map[]
    else
      var last := rows[|rows| - 1];
      BuildPredictionsMap(rows[..|rows| - 1])[RowKey(last) := EntryOf(last)]
  }

  /** Under a key, the record holds the last row with that key. */
  lemma {:induction false} BuildPredictionsMapLastWins(rows: seq<PredictionRow>, i: nat)
    requires i < |rows|
    requires forall j :: i < j < |rows| ==> RowKey(rows[j]) != RowKey(rows[i])
    ensures BuildPredictionsMap(rows)[RowKey(rows[i])] == EntryOf(rows[i])
    decreases |rows|
  {
    if i < |rows| - 1 {
      var init := rows[..|rows| - 1];
      assert init[i] == rows[i];
      BuildPredictionsMapLastWins(init, i);
    }
  }

  predicate NonNegativeIds(rows: seq<PredictionRow>) {
    forall i :: 0 <= i < |rows| ==> rows[i].matchId >= 0 && rows[i].participantId >= 0
  }

  /** Rows with unique (participant, match) pairs and non-negative ids have unique keys. */
  lemma UniqueRowKeys(rows: seq<PredictionRow>, i: nat, j: nat)
    requires UniquePairs(rows) && NonNegativeIds(rows)
    requires i < j < |rows|
    ensures RowKey(rows[i]) != RowKey(rows[j])
  {
    if RowKey(rows[i]) == RowKey(rows[j]) {
      GridKeyInjective(rows[i].matchId, rows[i].participantId, rows[j].matchId, rows[j].participantId);
    }
  }

  /**
    With unique pairs (the schema's unique index) and non-negative ids, the record
    has one entry per row, and each row is found under its own key.
  */
  lemma BuildPredictionsMapOfTable(rows: seq<PredictionRow>)
    requires UniquePairs(rows) && NonNegativeIds(rows)
    ensures |BuildPredictionsMap(rows)| == |rows|
    ensures forall i :: 0 <= i < |rows| ==> BuildPredictionsMap(rows)[RowKey(rows[i])] == EntryOf(rows[i])
  {
    BuildPredictionsMapSize(rows);
    forall i | 0 <= i < |rows| ensures BuildPredictionsMap(rows)[RowKey(rows[i])] == EntryOf(rows[i]) {
      BuildPredictionsMapAt(rows, i);
    }
  }

  /** With unique keys, each row is found under its own key. */
  lemma BuildPredictionsMapAt(rows: seq<PredictionRow>, i: nat)
    requires UniquePairs(rows) && NonNegativeIds(rows) && i < |rows|
    ensures BuildPredictionsMap(rows)[RowKey(rows[i])] == EntryOf(rows[i])
  {
    forall j | i < j < |rows| ensures RowKey(rows[j]) != RowKey(rows[i]) {
      UniqueRowKeys(rows, i, j);
    }
    BuildPredictionsMapLastWins(rows, i);
  }

  /** With unique keys, every row adds an entry. */
  lemma {:induction false} BuildPredictionsMapSize(rows: seq<PredictionRow>)
    requires UniquePairs(rows) && NonNegativeIds(rows)
    ensures |BuildPredictionsMap(rows)| == |rows|
    decreases |rows|
  {
    if rows != [] {
      var init := rows[..|rows| - 1];
      assert UniquePairs(init) && NonNegativeIds(init);
      BuildPredictionsMapSize(init);
      LastKeyIsNew(rows);
    }
  }

  /** With unique keys, the last row's key is not among the earlier rows' keys. */
  lemma LastKeyIsNew(rows: seq<PredictionRow>)
    requires UniquePairs(rows) && NonNegativeIds(rows) && rows != []
    ensures RowKey(rows[|rows| - 1]) !in RowKeys(rows[..|rows| - 1])
  {
    var init := rows[..|rows| - 1];
    forall i | 0 <= i < |init| ensures RowKeys(init)[i] != RowKey(rows[|rows| - 1]) {
      UniqueRowKeys(rows, i, |rows| - 1);
    }
  }

  /**
    Looking up a listing of the store: the key of a (match, participant) pair is
    present exactly when the store holds that prediction, and then the entry is
    the stored scores with null points shown as 0.
  */
  lemma BuildPredictionsMapLookup(rows: seq<PredictionRow>, predictions: map<PredictionKey, Prediction>, matchId: nat, participantId: nat)
    requires ListsTable(rows, predictions) && NonNegativeIds(rows)
    ensures GridKey(matchId, participantId) in BuildPredictionsMap(rows) <==> PredictionKey(participantId, matchId) in predictions
    ensures PredictionKey(participantId, matchId) in predictions ==>
              var p := predictions[PredictionKey(participantId, matchId)];
              BuildPredictionsMap(rows)[GridKey(matchId, participantId)]
                == GridPrediction(participantId, matchId, p.homeScore, p.awayScore, p.points.GetOr(0))
  {
    var k := PredictionKey(participantId, matchId);
    var key := GridKey(matchId, participantId);
    if key in BuildPredictionsMap(rows) {
      var i :| 0 <= i < |rows| && RowKeys(rows)[i] == key;
      GridKeyInjective(rows[i].matchId, rows[i].participantId, matchId, participantId);
      assert KeyOf(rows[i]) == k;
    }
    if k in predictions {
      var i :| 0 <= i < |rows| && KeyOf(rows[i]) == k;
      assert rows[i] == RowOf(k, predictions[k]);
      assert RowKeys(rows)[i] == key;
      BuildPredictionsMapAt(rows, i);
    }
  }
}
