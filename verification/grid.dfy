/**
  The per-cell rules of the predictions grid: the group column, the result
  column, and one participant's cell for one match, looked up in the record
  built by `getPredictionsData`.
*/
module Grid {
  import opened Wrappers
  import opened Text
  import opened Constants
  import opened Schema
  import opened Points
  import opened PredictionsMap
  import opened Recalculation

  /** The group column: the home team's group for a group-stage match (nothing when null), else the stage. */
  function GroupCell(m: Match): (r: string)
    ensures m.stage != "group" ==> r == m.stage
    ensures m.stage == "group" && m.homeTeam.group.Some? ==> r == m.homeTeam.group.value
    ensures m.stage == "group" && m.homeTeam.group.None? ==> r == ""
  {
    if m.stage == "group" then
      match m.homeTeam.group
      case Some(g) => g
      case None => ""
    else m.stage
  }

  /** In a valid store a group-stage match shows at most one character: the group column's width. */
  lemma GroupCellWidth(db: Db, m: Match)
    requires ValidEntities(db) && m in db.matches && m.stage == "group"
    ensures |GroupCell(m)| <= 1
  {
    assert ValidTeam(m.homeTeam);
  }

  /** The result column: the formatted score when both sides are known, else `NO_RESULT`. */
  function ResultCell(m: Match): (r: string)
    ensures r == NoResult <==> m.homeScore.None? || m.awayScore.None?
    ensures m.homeScore.Some? && m.awayScore.Some? ==> ParseScore(r) == Some((m.homeScore, m.awayScore))
  {
    if m.homeScore.Some? && m.awayScore.Some? then
      FormatScoreRoundTrip(m.homeScore, m.awayScore);
      FormatScore(m.homeScore, m.awayScore)
    else NoResult
  }

  /**
    The figure after the bar: the stored points for a finished match, the points the
    prediction would earn against the current score (nulls as 0) for a live one,
    and "-" for any other status.
  */
  function PointsText(m: Match, p: GridPrediction): (r: string)
    ensures m.status == Some(Finished) ==> ParseInt(r) == Some(p.points)
    ensures m.status == Some(Live) ==>
              ParseInt(r) == Some(CalculatePoints(p.homeScore, p.awayScore, m.homeScore.GetOr(0), m.awayScore.GetOr(0)))
    ensures m.status != Some(Finished) && m.status != Some(Live) ==> r == "-"
  {
    if m.status == Some(Finished) then
      ParseIntRoundTrip(p.points);
      IntToString(p.points)
    else if m.status == Some(Live) then
      var v := CalculatePoints(p.homeScore, p.awayScore, m.homeScore.GetOr(0), m.awayScore.GetOr(0));
      ParseIntRoundTrip(v);
      IntToString(v)
    else "-"
  }

  /** A participant's cell: "-" without a prediction, else the predicted score, " | " and the points figure. */
  function Cell(m: Match, participantId: int, predictions: map<string, GridPrediction>): (r: string)
    ensures r == "-" <==> GridKey(m.id, participantId) !in predictions
    ensures GridKey(m.id, participantId) in predictions ==>
              var p := predictions[GridKey(m.id, participantId)];
              && FormatScore(Some(p.homeScore), Some(p.awayScore)) <= r
              && r[|FormatScore(Some(p.homeScore), Some(p.awayScore))|..] == " | " + PointsText(m, p)
  {
    var key := GridKey(m.id, participantId);
    if key !in predictions then "-"
    else
      var p := predictions[key];
      var score := FormatScore(Some(p.homeScore), Some(p.awayScore));
      var r := score + " | " + PointsText(m, p);
      assert r[|score|..] == " | " + PointsText(m, p);
      r
  }

  /**
    The cell of a listed store: "-" exactly when the store holds no prediction for
    the pair, and otherwise the stored scores and, for a finished match, the stored
    points with null shown as 0.
  */
  lemma CellOfStore(rows: seq<PredictionRow>, predictions: map<PredictionKey, Prediction>, m: Match, participantId: nat)
    requires ListsTable(rows, predictions) && NonNegativeIds(rows) && m.id >= 0
    ensures Cell(m, participantId, BuildPredictionsMap(rows)) == "-" <==> PredictionKey(participantId, m.id) !in predictions
    ensures PredictionKey(participantId, m.id) in predictions ==>
              var p := predictions[PredictionKey(participantId, m.id)];
              Cell(m, participantId, BuildPredictionsMap(rows))
                == FormatScore(Some(p.homeScore), Some(p.awayScore)) + " | "
                   + PointsText(m, GridPrediction(participantId, m.id, p.homeScore, p.awayScore, p.points.GetOr(0)))
  {
    BuildPredictionsMapLookup(rows, predictions, m.id, participantId);
  }

  /**
    Once a finished match's points have been recalculated, its cells show the same
    figure the live rule computes from the final score: finishing a live match
    does not change what the grid shows.
  */
  lemma FinishedCellAgreesWithLive(m: Match, p: Prediction, participantId: int)
    requires HasResult(m) && p.points == Some(PointsAgainst(p, m))
    ensures var g := GridPrediction(participantId, m.id, p.homeScore, p.awayScore, p.points.GetOr(0));
            PointsText(m.(status := Some(Finished)), g) == PointsText(m.(status := Some(Live)), g)
  {
  }
}
