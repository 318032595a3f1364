/**
  Re-scoring stored predictions: `updateMatchPredictions` for one match and
  `recalculateAllPoints` for every finished match, over the immutable store.
*/
module Recalculation {
  import opened Wrappers
  import opened Constants
  import opened Schema
  import opened Points

  /** The error `updateMatchPredictions` throws. */
  const MatchNotResolvable: string := "Match not finished or scores missing"

  /** The first match with the given id, as `findFirst` on the primary key returns it. */
  function FindMatch(matches: seq<Match>, id: int): (r: Option<Match>)
    ensures r.Some? <==> exists i :: 0 <= i < |matches| && matches[i].id == id
    ensures r.Some? ==> exists i :: 0 <= i < |matches| && matches[i] == r.value
                                   && r.value.id == id && forall j :: 0 <= j < i ==> matches[j].id != id
  {
    if matches == [] then None
    else if matches[0].id == id then Some(matches[0])
    else
      var r := FindMatch(matches[1..], id);
      if r.Some? then
        var i :| 0 <= i < |matches[1..]| && matches[1..][i] == r.value && r.value.id == id
                 && forall j :: 0 <= j < i ==> matches[1..][j].id != id;
        assert matches[i + 1] == r.value;
        r
      else r
  }

  /** With unique ids, the match found by id is the one in the list. */
  lemma FindMatchUnique(matches: seq<Match>, m: Match)
    requires UniqueMatchIds(matches) && m in matches
    ensures FindMatch(matches, m.id) == Some(m)
  {
    var r := FindMatch(matches, m.id);
    var i :| 0 <= i < |matches| && matches[i] == r.value && forall j :: 0 <= j < i ==> matches[j].id != m.id;
    var k :| 0 <= k < |matches| && matches[k] == m;
    if i < k {} else if k < i {}
  }

  /** Both sides of the result are known. */
  predicate HasResult(m: Match) {
    m.homeScore.Some? && m.awayScore.Some?
  }

  /** The points a prediction earns against a match with a result. */
  function PointsAgainst(p: Prediction, m: Match): int
    requires HasResult(m)
  {
    CalculatePoints(p.homeScore, p.awayScore, m.homeScore.value, m.awayScore.value)
  }

  /** Every prediction of match `m` gets its points recomputed against `m`'s result. */
  function Rescore(predictions: map<PredictionKey, Prediction>, m: Match): (r: map<PredictionKey, Prediction>)
    requires HasResult(m)
    ensures r.Keys == predictions.Keys
    ensures forall k :: k in r && k.matchId == m.id ==> r[k] == predictions[k].(points := Some(PointsAgainst(predictions[k], m)))
    ensures forall k :: k in r && k.matchId != m.id ==> r[k] == predictions[k]
  {
    map k | k in predictions :: if k.matchId == m.id then predictions[k].(points := Some(PointsAgainst(predictions[k], m))) else predictions[k]
  }

  /** How many predictions a match has. */
  function CountForMatch(predictions: map<PredictionKey, Prediction>, matchId: int): nat {
    |set k | k in predictions && k.matchId == matchId|
  }

  /** The stored points of every prediction of `m` agree with `m`'s result. */
  predicate PointsAgreeFor(predictions: map<PredictionKey, Prediction>, m: Match)
    requires HasResult(m)
  {
    forall k :: k in predictions && k.matchId == m.id ==> predictions[k].points == Some(PointsAgainst(predictions[k], m))
  }

  /**
    `updateMatchPredictions`: fails exactly when the match is missing or a side of its
    result is null (its status is not looked at). Otherwise only the predictions of
    that match change, and only in their points, which afterwards agree with the
    result; the count of that match's predictions is returned.
  */
  function UpdateMatchPredictions(db: Db, matchId: int): (r: Result<(Db, nat)>)
    ensures r.Failure? <==> FindMatch(db.matches, matchId).None? || !HasResult(FindMatch(db.matches, matchId).value)
    ensures r.Success? ==>
              var (db', n) := r.value;
              var m := FindMatch(db.matches, matchId).value;
              && db' == db.(predictions := db'.predictions)
              && db'.predictions.Keys == db.predictions.Keys
              && PointsAgreeFor(db'.predictions, m)
              && (forall k :: k in db.predictions ==>
                    db'.predictions[k].homeScore == db.predictions[k].homeScore
                    && db'.predictions[k].awayScore == db.predictions[k].awayScore)
              && (forall k :: k in db.predictions && k.matchId != matchId ==> db'.predictions[k] == db.predictions[k])
              && n == CountForMatch(db.predictions, matchId)
  {
    match FindMatch(db.matches, matchId)
    case None => Failure(MatchNotResolvable)
    case Some(m) =>
      if !HasResult(m) then Failure(MatchNotResolvable)
      else Success((db.(predictions := Rescore(db.predictions, m)), CountForMatch(db.predictions, matchId)))
  }

  /** Re-scoring a match twice stores the same points as once. */
  lemma UpdateMatchPredictionsIdempotent(db: Db, matchId: int)
    requires UpdateMatchPredictions(db, matchId).Success?
    ensures var (db', n) := UpdateMatchPredictions(db, matchId).value;
            UpdateMatchPredictions(db', matchId) == Success((db', n))
  {
    var (db', n) := UpdateMatchPredictions(db, matchId).value;
    var m := FindMatch(db.matches, matchId).value;
    assert Rescore(db'.predictions, m) == db'.predictions;
    assert (set k | k in db'.predictions && k.matchId == matchId) == (set k | k in db.predictions && k.matchId == matchId);
  }

  // ---------------------------------------------------------------------------
  // recalculateAllPoints
  // ---------------------------------------------------------------------------

  predicate IsFinished(m: Match) {
    m.status == Some(FinishedStatus)
  }

  /** The matches whose status is "finished", in list order. */
  function FinishedMatches(matches: seq<Match>): (r: seq<Match>)
    ensures |r| <= |matches|
    ensures forall m :: m in r <==> m in matches && IsFinished(m)
  {
    if matches == [] then []
    else (if IsFinished(matches[0]) then [matches[0]] else []) + FinishedMatches(matches[1..])
  }

  /** The loop of `recalculateAllPoints` over the finished matches, summing the update counts. */
  function RecalculateOver(db: Db, finished: seq<Match>): Result<(Db, nat)>
    decreases |finished|
  {
    if finished == [] then Success((db, 0))
    else
      var m := finished[0];
      if HasResult(m) then
        match UpdateMatchPredictions(db, m.id)
        case Failure(e) => Failure(e)
        case Success((db1, n)) =>
          match RecalculateOver(db1, finished[1..])
          case Failure(e) => Failure(e)
          case Success((db2, total)) => Success((db2, n + total))
      else RecalculateOver(db, finished[1..])
  }

  datatype RecalculationSummary = RecalculationSummary(matchesProcessed: nat, predictionsUpdated: nat)

  /**
    `recalculateAllPoints`: `matchesProcessed` counts every finished match, including
    those skipped for a null score; `predictionsUpdated` sums the update counts.
  */
  function RecalculateAllPoints(db: Db): (r: Result<(Db, RecalculationSummary)>)
    ensures r.Success? ==> r.value.1.matchesProcessed == |FinishedMatches(db.matches)|
  {
    var finished := FinishedMatches(db.matches);
    match RecalculateOver(db, finished)
    case Failure(e) => Failure(e)
    case Success((db', total)) => Success((db', RecalculationSummary(|finished|, total)))
  }

  /** The ids of the matches that get re-scored: finished ones whose result is known. */
  predicate Recalculated(finished: seq<Match>, matchId: int) {
    exists i :: 0 <= i < |finished| && finished[i].id == matchId && HasResult(finished[i])
  }

  /** A run fails exactly when a re-scored id resolves (first match by id) to a match lacking a result. */
  predicate RunFails(matches: seq<Match>, finished: seq<Match>) {
    exists i :: 0 <= i < |finished| && HasResult(finished[i])
                && (FindMatch(matches, finished[i].id).None? || !HasResult(FindMatch(matches, finished[i].id).value))
  }

  /** The sum of the update counts of the re-scored matches. */
  function SumCounts(predictions: map<PredictionKey, Prediction>, finished: seq<Match>): nat {
    if finished == [] then 0
    else (if HasResult(finished[0]) then CountForMatch(predictions, finished[0].id) else 0) + SumCounts(predictions, finished[1..])
  }

  /**
    What the loop computes: it fails exactly when `RunFails`; otherwise only points
    change, each re-scored prediction agrees with its match's result, every other
    prediction is untouched, and the total is the sum of the counts.
  */
  lemma {:induction false} RecalculateOverSpec(db: Db, finished: seq<Match>)
    ensures RecalculateOver(db, finished).Failure? <==> RunFails(db.matches, finished)
    ensures RecalculateOver(db, finished).Success? ==>
              var (db', total) := RecalculateOver(db, finished).value;
              && db' == db.(predictions := db'.predictions)
              && db'.predictions.Keys == db.predictions.Keys
              && total == SumCounts(db.predictions, finished)
              && (forall k :: k in db.predictions && Recalculated(finished, k.matchId) ==>
                    var m := FindMatch(db.matches, k.matchId).value;
                    HasResult(m) && db'.predictions[k] == db.predictions[k].(points := Some(PointsAgainst(db.predictions[k], m))))
              && (forall k :: k in db.predictions && !Recalculated(finished, k.matchId) ==> db'.predictions[k] == db.predictions[k])
    decreases |finished|
  {
    if finished != [] {
      var m := finished[0];
      var rest := finished[1..];
      RecalculatedCons(finished);
      RunFailsCons(db.matches, finished);
      if HasResult(m) {
        match UpdateMatchPredictions(db, m.id)
        case Failure(e) =>
        case Success((db1, n)) =>
          RecalculateOverSpec(db1, rest);
          assert db1.matches == db.matches;
          assert forall k :: k in db.predictions && k.matchId == m.id ==>
                   db1.predictions[k] == db.predictions[k].(points := Some(PointsAgainst(db.predictions[k], FindMatch(db.matches, m.id).value)));
          assert (set k | k in db1.predictions && k.matchId == m.id) == (set k | k in db.predictions && k.matchId == m.id);
          SumCountsKeysOnly(db.predictions, db1.predictions, rest);
      } else {
        RecalculateOverSpec(db, rest);
      }
    }
  }

  /** The re-scored ids of a non-empty list: its head's id when the head has a result, and those of its tail. */
  lemma RecalculatedCons(finished: seq<Match>)
    requires finished != []
    ensures forall id :: Recalculated(finished, id) <==>
              (HasResult(finished[0]) && finished[0].id == id) || Recalculated(finished[1..], id)
  {
    var rest := finished[1..];
    forall id ensures Recalculated(finished, id) <==> (HasResult(finished[0]) && finished[0].id == id) || Recalculated(rest, id) {
      if Recalculated(rest, id) {
        var i :| 0 <= i < |rest| && rest[i].id == id && HasResult(rest[i]);
        assert finished[i + 1] == rest[i];
      }
      if Recalculated(finished, id) {
        var i :| 0 <= i < |finished| && finished[i].id == id && HasResult(finished[i]);
        if i > 0 { assert rest[i - 1] == finished[i]; }
      }
    }
  }

  /** A run over a non-empty list fails at its head or in its tail. */
  lemma RunFailsCons(matches: seq<Match>, finished: seq<Match>)
    requires finished != []
    ensures RunFails(matches, finished) <==>
              (HasResult(finished[0])
               && (FindMatch(matches, finished[0].id).None? || !HasResult(FindMatch(matches, finished[0].id).value)))
              || RunFails(matches, finished[1..])
  {
    var rest := finished[1..];
    if RunFails(matches, rest) {
      var i :| 0 <= i < |rest| && HasResult(rest[i])
               && (FindMatch(matches, rest[i].id).None? || !HasResult(FindMatch(matches, rest[i].id).value));
      assert finished[i + 1] == rest[i];
    }
    if RunFails(matches, finished) {
      var i :| 0 <= i < |finished| && HasResult(finished[i])
               && (FindMatch(matches, finished[i].id).None? || !HasResult(FindMatch(matches, finished[i].id).value));
      if i > 0 { assert rest[i - 1] == finished[i]; }
    }
  }

  /** The counts depend only on which keys are stored. */
  lemma {:induction false} SumCountsKeysOnly(p: map<PredictionKey, Prediction>, q: map<PredictionKey, Prediction>, finished: seq<Match>)
    requires p.Keys == q.Keys
    ensures SumCounts(p, finished) == SumCounts(q, finished)
  {
    if finished != [] {
      SumCountsKeysOnly(p, q, finished[1..]);
      assert (set k | k in p && k.matchId == finished[0].id) == (set k | k in q && k.matchId == finished[0].id);
    }
  }

  /** With unique match ids (the primary key) recalculation never fails. */
  lemma RecalculateAllSucceeds(db: Db)
    requires UniqueMatchIds(db.matches)
    ensures RecalculateAllPoints(db).Success?
  {
    var finished := FinishedMatches(db.matches);
    RecalculateOverSpec(db, finished);
    if RunFails(db.matches, finished) {
      var i :| 0 <= i < |finished| && HasResult(finished[i])
               && (FindMatch(db.matches, finished[i].id).None? || !HasResult(FindMatch(db.matches, finished[i].id).value));
      assert finished[i] in finished;
      FindMatchUnique(db.matches, finished[i]);
    }
  }

  /**
    The consistency invariant of stored points: every prediction of a finished
    match with a known result holds the points it earns against that result.
  */
  predicate PointsConsistent(db: Db) {
    forall k :: k in db.predictions && FindMatch(db.matches, k.matchId).Some?
                && IsFinished(FindMatch(db.matches, k.matchId).value) && HasResult(FindMatch(db.matches, k.matchId).value) ==>
      db.predictions[k].points == Some(PointsAgainst(db.predictions[k], FindMatch(db.matches, k.matchId).value))
  }

  /**
    After a successful `recalculateAllPoints`, stored points are consistent,
    `predictionsUpdated` is the sum of the re-scored matches' prediction counts, and
    only points changed: each prediction of a re-scored match holds its points
    against that match's result, and every other prediction is as it was.
  */
  lemma RecalculateAllPointsSpec(db: Db)
    requires UniqueMatchIds(db.matches)
    ensures RecalculateAllPoints(db).Success?
    ensures var (db', summary) := RecalculateAllPoints(db).value;
            && PointsConsistent(db')
            && summary.predictionsUpdated == SumCounts(db.predictions, FinishedMatches(db.matches))
            && db' == db.(predictions := db'.predictions)
            && db'.predictions.Keys == db.predictions.Keys
            && (forall k :: k in db.predictions && Recalculated(FinishedMatches(db.matches), k.matchId) ==>
                  && FindMatch(db.matches, k.matchId).Some?
                  && HasResult(FindMatch(db.matches, k.matchId).value)
                  && db'.predictions[k]
                       == db.predictions[k].(points := Some(PointsAgainst(db.predictions[k], FindMatch(db.matches, k.matchId).value))))
            && (forall k :: k in db.predictions && !Recalculated(FinishedMatches(db.matches), k.matchId) ==>
                  db'.predictions[k] == db.predictions[k])
  {
    RecalculateAllSucceeds(db);
    var finished := FinishedMatches(db.matches);
    RecalculateOverSpec(db, finished);
    var (db', summary) := RecalculateAllPoints(db).value;
    forall k | k in db'.predictions && FindMatch(db'.matches, k.matchId).Some?
               && IsFinished(FindMatch(db'.matches, k.matchId).value) && HasResult(FindMatch(db'.matches, k.matchId).value)
      ensures db'.predictions[k].points == Some(PointsAgainst(db'.predictions[k], FindMatch(db'.matches, k.matchId).value))
    {
      var m := FindMatch(db.matches, k.matchId).value;
      assert m in db.matches;
      assert m in finished;
      var i :| 0 <= i < |finished| && finished[i] == m;
      assert Recalculated(finished, k.matchId);
    }
    forall k | k in db.predictions && Recalculated(finished, k.matchId)
      ensures FindMatch(db.matches, k.matchId).Some?
    {
      var i :| 0 <= i < |finished| && finished[i].id == k.matchId && HasResult(finished[i]);
      assert finished[i] in db.matches;
    }
  }

  /** Running `recalculateAllPoints` a second time stores exactly what the first run stored. */
  lemma RecalculateAllPointsIdempotent(db: Db)
    requires UniqueMatchIds(db.matches)
    ensures RecalculateAllPoints(db).Success?
    ensures var (db', _) := RecalculateAllPoints(db).value;
            RecalculateAllPoints(db').Success? && RecalculateAllPoints(db').value.0 == db'
  {
    RecalculateAllPointsSpec(db);
    var (db', _) := RecalculateAllPoints(db).value;
    RecalculateAllPointsSpec(db');
    var finished := FinishedMatches(db.matches);
    RecalculateOverSpec(db, finished);
    RecalculateOverSpec(db', finished);
    var db'' := RecalculateAllPoints(db').value.0;
    assert db''.predictions == db'.predictions;
  }
}
