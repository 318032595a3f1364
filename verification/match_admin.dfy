/**
  The administrator's match update (PATCH on the matches route): overwrite the
  match's result and status, then re-score its predictions when the new status is
  "finished".
*/
module MatchAdmin {
  import opened Wrappers
  import opened Constants
  import opened Schema
  import opened Points
  import opened Recalculation

  /** The request body: scores and status may be null. */
  datatype MatchPatch = MatchPatch(matchId: int, homeScore: Option<int>, awayScore: Option<int>, status: Option<string>)

  /** The store after the request, and the error thrown, if any. */
  datatype Response = Response(store: Db, error: Option<string>)

  /** The match with the patched result and status. */
  function Patched(m: Match, p: MatchPatch): Match {
    m.(homeScore := p.homeScore, awayScore := p.awayScore, status := p.status)
  }

  /** `UPDATE matches SET homeScore, awayScore, status WHERE id = matchId`: no other match changes. */
  function SetResult(matches: seq<Match>, p: MatchPatch): (r: seq<Match>)
    ensures |r| == |matches|
    ensures forall i :: 0 <= i < |matches| && matches[i].id == p.matchId ==> r[i] == Patched(matches[i], p)
    ensures forall i :: 0 <= i < |matches| && matches[i].id != p.matchId ==> r[i] == matches[i]
    ensures forall i :: 0 <= i < |matches| ==> r[i].id == matches[i].id && r[i].matchNumber == matches[i].matchNumber
  {
    seq(|matches|, i requires 0 <= i < |matches| => if matches[i].id == p.matchId then Patched(matches[i], p) else matches[i])
  }

  /** After the update, the match found by that id carries the request's result and status. */
  lemma FindPatched(matches: seq<Match>, p: MatchPatch)
    ensures FindMatch(SetResult(matches, p), p.matchId).Some? <==> exists i :: 0 <= i < |matches| && matches[i].id == p.matchId
    ensures FindMatch(SetResult(matches, p), p.matchId).Some? ==>
              var m := FindMatch(SetResult(matches, p), p.matchId).value;
              m.homeScore == p.homeScore && m.awayScore == p.awayScore && m.status == p.status
  {
    var r := SetResult(matches, p);
    if exists i :: 0 <= i < |matches| && matches[i].id == p.matchId {
      var i :| 0 <= i < |matches| && matches[i].id == p.matchId;
      assert r[i].id == p.matchId;
    }
    if FindMatch(r, p.matchId).Some? {
      var i :| 0 <= i < |r| && r[i] == FindMatch(r, p.matchId).value && r[i].id == p.matchId;
      assert matches[i].id == p.matchId;
    }
  }

  /**
    The PATCH handler: the match change is always stored; re-scoring runs exactly
    when the new status is "finished", and then fails when the match is missing or
    a score is null. Without re-scoring no stored points change.
  */
  function PatchMatch(db: Db, p: MatchPatch): (r: Response)
    ensures r.store.matches == SetResult(db.matches, p)
    ensures r.store.teams == db.teams && r.store.participants == db.participants
    ensures r.store.nextParticipantId == db.nextParticipantId
    ensures r.store.predictions.Keys == db.predictions.Keys
    ensures p.status != Some(FinishedStatus) ==> r.error.None? && r.store.predictions == db.predictions
    ensures p.status == Some(FinishedStatus) ==>
              (r.error.None? <==> HasMatch(db, p.matchId) && p.homeScore.Some? && p.awayScore.Some?)
    ensures r.error.Some? ==> r.store.predictions == db.predictions
    ensures p.status == Some(FinishedStatus) && r.error.None? ==>
              forall k :: k in r.store.predictions && k.matchId == p.matchId ==>
                r.store.predictions[k].points
                  == Some(CalculatePoints(r.store.predictions[k].homeScore, r.store.predictions[k].awayScore,
                                          p.homeScore.value, p.awayScore.value))
    ensures forall k :: k in db.predictions ==>
              r.store.predictions[k].homeScore == db.predictions[k].homeScore
              && r.store.predictions[k].awayScore == db.predictions[k].awayScore
    ensures forall k :: k in db.predictions && k.matchId != p.matchId ==> r.store.predictions[k] == db.predictions[k]
  {
    var updated := db.(matches := SetResult(db.matches, p));
    FindPatched(db.matches, p);
    if p.status == Some(FinishedStatus) then
      match UpdateMatchPredictions(updated, p.matchId)
      case Failure(e) => Response(updated, Some(e))
      case Success((db', _)) => Response(db', None)
    else Response(updated, None)
  }

  /** Updating a match's result and status keeps the constraints on teams, matches and participants. */
  lemma SetResultKeepsEntities(db: Db, p: MatchPatch)
    requires ValidEntities(db)
    ensures ValidEntities(db.(matches := SetResult(db.matches, p)))
  {
    var ms := SetResult(db.matches, p);
    forall m | m in ms ensures m.homeTeam in db.teams && m.awayTeam in db.teams && ValidMatch(m) {
      var i :| 0 <= i < |ms| && ms[i] == m;
      assert db.matches[i] in db.matches;
    }
  }

  /** The update keeps every schema constraint. */
  lemma PatchMatchKeepsValid(db: Db, p: MatchPatch)
    requires ValidDb(db)
    ensures ValidDb(PatchMatch(db, p).store)
  {
    var r := PatchMatch(db, p).store;
    var updated := db.(matches := SetResult(db.matches, p));
    SetResultKeepsEntities(db, p);
    assert r == updated.(predictions := r.predictions);
    forall k | k in r.predictions ensures HasParticipant(updated, k.participantId) && HasMatch(updated, k.matchId) {
      assert HasParticipant(db, k.participantId) && HasMatch(db, k.matchId);
      var i :| 0 <= i < |db.matches| && db.matches[i].id == k.matchId;
      assert updated.matches[i].id == k.matchId;
    }
    WithPredictionsValid(updated, r.predictions);
  }
}
