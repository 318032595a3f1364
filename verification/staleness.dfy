/**
  How the upserts and the recalculation interact: an upsert keeps a prediction's
  points while overwriting its scores, so the points of a finished match's
  prediction go stale exactly when the new scores would earn different points,
  and the next full recalculation makes every finished match's points agree
  with its result again.
*/
module Staleness {
  import opened Wrappers
  import opened Schema
  import opened Points
  import opened Recalculation
  import opened Upserts

  /**
    After upserting over an existing prediction of a finished match with a result,
    a store whose points agreed with every result still agrees exactly when the
    kept points equal what the new scores earn; a recalculation restores agreement
    either way.
  */
  lemma UpsertStaleness(db: Db, participantId: int, w: Write)
    requires PointsConsistent(db) && UniqueMatchIds(db.matches)
    requires PredictionKey(participantId, w.matchId) in db.predictions
    requires FindMatch(db.matches, w.matchId).Some?
    requires IsFinished(FindMatch(db.matches, w.matchId).value) && HasResult(FindMatch(db.matches, w.matchId).value)
    ensures var m := FindMatch(db.matches, w.matchId).value;
            var db' := db.(predictions := Upsert(db.predictions, participantId, w));
            PointsConsistent(db') <==>
              db.predictions[PredictionKey(participantId, w.matchId)].points
                == Some(CalculatePoints(w.homeScore, w.awayScore, m.homeScore.value, m.awayScore.value))
    ensures var db' := db.(predictions := Upsert(db.predictions, participantId, w));
            RecalculateAllPoints(db').Success? && PointsConsistent(RecalculateAllPoints(db').value.0)
  {
    var k := PredictionKey(participantId, w.matchId);
    var m := FindMatch(db.matches, w.matchId).value;
    var db' := db.(predictions := Upsert(db.predictions, participantId, w));
    assert db'.predictions[k] == Prediction(w.homeScore, w.awayScore, db.predictions[k].points);
    if db.predictions[k].points == Some(CalculatePoints(w.homeScore, w.awayScore, m.homeScore.value, m.awayScore.value)) {
      forall j | j in db'.predictions && FindMatch(db'.matches, j.matchId).Some?
                 && IsFinished(FindMatch(db'.matches, j.matchId).value) && HasResult(FindMatch(db'.matches, j.matchId).value)
        ensures db'.predictions[j].points == Some(PointsAgainst(db'.predictions[j], FindMatch(db'.matches, j.matchId).value))
      {
        if j != k {
          assert db'.predictions[j] == db.predictions[j];
        }
      }
    }
    RecalculateAllPointsSpec(db');
  }
}
