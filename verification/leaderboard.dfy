/**
  The leaderboard: one standing per participant aggregated from the predictions
  table (the left join, sum and counts of the leaderboard query), ordered by total
  then exact scores, with the preview slots attached and rank labels assigned.
*/
module Leaderboard {
  import opened Wrappers
  import opened Constants
  import opened Schema
  import opened Points
  import opened Ranks
  import opened Preview
  import opened Recalculation
  import opened Upserts

  /**
    One row of the leaderboard query as `getLeaderboard` passes it on: the query
    also selects the email, but the row mapping drops it.
  */
  datatype Standing = Standing(
    id: int,
    name: string,
    totalPoints: int,
    predictionsCount: nat,
    exactScores: nat,
    correctOutcomes: nat)

  // ---------------------------------------------------------------------------
  // aggregates
  // ---------------------------------------------------------------------------

  /** The sum of a weight over the rows of a table. */
  function SumBy(rows: seq<PredictionRow>, w: PredictionRow -> int): int {
    if rows == [] then 0 else w(rows[0]) + SumBy(rows[1..], w)
  }

  /** `COALESCE(SUM(points), 0)` over a participant's rows: null points add nothing. */
  function TotalPoints(rows: seq<PredictionRow>, participantId: int): int {
    SumBy(rows, (r: PredictionRow) => if r.participantId == participantId && r.points.Some? then r.points.value else 0)
  }

  /** `COUNT(CASE WHEN points = v THEN 1 END)` over a participant's rows. */
  function CountWithPoints(rows: seq<PredictionRow>, participantId: int, v: int): int {
    SumBy(rows, (r: PredictionRow) => if r.participantId == participantId && r.points == Some(v) then 1 else 0)
  }

  /** `COUNT(pred.id)` over a participant's rows: zero for a participant without predictions. */
  function CountRows(rows: seq<PredictionRow>, participantId: int): int {
    SumBy(rows, (r: PredictionRow) => if r.participantId == participantId then 1 else 0)
  }

  lemma {:induction false} SumByConcat(a: seq<PredictionRow>, b: seq<PredictionRow>, w: PredictionRow -> int)
    ensures SumBy(a + b, w) == SumBy(a, w) + SumBy(b, w)
  {
    if a == [] {
      assert a + b == b;
    } else {
      assert (a + b)[0] == a[0];
      assert (a + b)[1..] == a[1..] + b;
      SumByConcat(a[1..], b, w);
    }
  }

  /** Taking one row out of a table takes its weight out of the sum. */
  lemma SumByRemove(b: seq<PredictionRow>, j: nat, w: PredictionRow -> int)
    requires j < |b|
    ensures SumBy(b, w) == w(b[j]) + SumBy(b[..j] + b[j + 1..], w)
  {
    var pre, x, post := b[..j], b[j], b[j + 1..];
    assert b == (pre + [x]) + post;
    SumByConcat(pre + [x], post, w);
    SumByConcat(pre, [x], w);
    assert SumBy([x], w) == w(x) + SumBy([], w);
    SumByConcat(pre, post, w);
  }

  /** Removing the same element from two equal multisets of rows leaves equal multisets. */
  lemma MultisetRemove(a: seq<PredictionRow>, b: seq<PredictionRow>, j: nat)
    requires multiset(a) == multiset(b) && a != [] && j < |b| && b[j] == a[0]
    ensures multiset(a[1..]) == multiset(b[..j] + b[j + 1..])
  {
    var x := a[0];
    var rest := b[..j] + b[j + 1..];
    assert a == [x] + a[1..];
    assert b == b[..j] + [x] + b[j + 1..];
    assert multiset(a) == multiset{x} + multiset(a[1..]);
    assert multiset(b) == multiset(b[..j]) + multiset{x} + multiset(b[j + 1..]);
    assert multiset(rest) == multiset(b[..j]) + multiset(b[j + 1..]);
    forall y ensures multiset(a[1..])[y] == multiset(rest)[y] {
      assert multiset(a)[y] == multiset(b)[y];
    }
  }

  /** A sum over a table does not depend on the order of its rows. */
  lemma {:induction false} SumByPermutation(a: seq<PredictionRow>, b: seq<PredictionRow>, w: PredictionRow -> int)
    requires multiset(a) == multiset(b)
    ensures SumBy(a, w) == SumBy(b, w)
    decreases |a|
  {
    if a == [] {
      assert |b| == |multiset(b)| == 0;
    } else {
      assert a[0] in multiset(b);
      var j :| 0 <= j < |b| && b[j] == a[0];
      MultisetRemove(a, b, j);
      SumByPermutation(a[1..], b[..j] + b[j + 1..], w);
      SumByRemove(b, j, w);
    }
  }

  /** A sum of non-negative weights is non-negative. */
  lemma {:induction false} SumByNonNegative(rows: seq<PredictionRow>, w: PredictionRow -> int)
    requires forall i :: 0 <= i < |rows| ==> w(rows[i]) >= 0
    ensures SumBy(rows, w) >= 0
  {
    if rows != [] {
      SumByNonNegative(rows[1..], w);
    }
  }

  /** The aggregated standing of a participant (the left join grouped by participant). */
  function StandingOf(p: Participant, rows: seq<PredictionRow>): Standing {
    var count := CountRows(rows, p.id);
    var exact := CountWithPoints(rows, p.id, 3);
    var correct := CountWithPoints(rows, p.id, 1);
    SumByNonNegative(rows, (r: PredictionRow) => if r.participantId == p.id then 1 else 0);
    SumByNonNegative(rows, (r: PredictionRow) => if r.participantId == p.id && r.points == Some(3) then 1 else 0);
    SumByNonNegative(rows, (r: PredictionRow) => if r.participantId == p.id && r.points == Some(1) then 1 else 0);
    Standing(p.id, p.name, TotalPoints(rows, p.id), count, exact, correct)
  }

  /** One standing per participant, in participant order (`GROUP BY p.id`). */
  function Standings(participants: seq<Participant>, rows: seq<PredictionRow>): (r: seq<Standing>)
    ensures |r| == |participants|
    ensures forall i :: 0 <= i < |participants| ==> r[i].id == participants[i].id && r[i].name == participants[i].name
  {
    seq(|participants|, i requires 0 <= i < |participants| => StandingOf(participants[i], rows))
  }

  /** The standings depend only on the table's rows, not on their order. */
  lemma StandingsIgnoreRowOrder(participants: seq<Participant>, rows: seq<PredictionRow>, rows': seq<PredictionRow>)
    requires multiset(rows) == multiset(rows')
    ensures Standings(participants, rows) == Standings(participants, rows')
  {
    forall i | 0 <= i < |participants| ensures StandingOf(participants[i], rows) == StandingOf(participants[i], rows') {
      var id := participants[i].id;
      SumByPermutation(rows, rows', (r: PredictionRow) => if r.participantId == id && r.points.Some? then r.points.value else 0);
      SumByPermutation(rows, rows', (r: PredictionRow) => if r.participantId == id && r.points == Some(3) then 1 else 0);
      SumByPermutation(rows, rows', (r: PredictionRow) => if r.participantId == id && r.points == Some(1) then 1 else 0);
      SumByPermutation(rows, rows', (r: PredictionRow) => if r.participantId == id then 1 else 0);
    }
  }

  // ---------------------------------------------------------------------------
  // the point scale: totals are 3 per exact score plus 1 per correct outcome
  // ---------------------------------------------------------------------------

  /** Stored points are null or one of the three point values. */
  predicate InScale(points: Option<int>) {
    points.None? || points.value == PerfectPrediction || points.value == GoodPrediction || points.value == BadPrediction
  }

  predicate RowsInScale(rows: seq<PredictionRow>) {
    forall i :: 0 <= i < |rows| ==> InScale(rows[i].points)
  }

  predicate StoreInScale(predictions: map<PredictionKey, Prediction>) {
    forall k :: k in predictions ==> InScale(predictions[k].points)
  }

  /**
    With points on the scale, a participant's total is 3 per exact score plus 1 per
    correct outcome, and exact plus correct never exceeds the number of predictions.
  */
  lemma {:induction false} TotalFromCounts(rows: seq<PredictionRow>, participantId: int)
    requires RowsInScale(rows)
    ensures TotalPoints(rows, participantId)
            == 3 * CountWithPoints(rows, participantId, 3) + CountWithPoints(rows, participantId, 1)
    ensures CountWithPoints(rows, participantId, 3) + CountWithPoints(rows, participantId, 1) <= CountRows(rows, participantId)
    ensures TotalPoints(rows, participantId) >= 0
  {
    if rows != [] {
      assert RowsInScale(rows[1..]) by {
        forall i | 0 <= i < |rows[1..]| ensures InScale(rows[1..][i].points) {
          assert rows[1..][i] == rows[i + 1];
        }
      }
      assert InScale(rows[0].points);
      TotalFromCounts(rows[1..], participantId);
    }
  }

  /** A listing of a store whose points are on the scale has its rows on the scale. */
  lemma ListingInScale(rows: seq<PredictionRow>, predictions: map<PredictionKey, Prediction>)
    requires ListsTable(rows, predictions) && StoreInScale(predictions)
    ensures RowsInScale(rows)
  {
    forall i | 0 <= i < |rows| ensures InScale(rows[i].points) {
      assert rows[i].points == predictions[KeyOf(rows[i])].points;
    }
  }

  /** Upserts keep stored points on the scale: kept points stay, new rows get 0. */
  lemma UpsertAllInScale(predictions: map<PredictionKey, Prediction>, participantId: int, ws: seq<Write>)
    requires StoreInScale(predictions)
    ensures StoreInScale(UpsertAll(predictions, participantId, ws))
  {
    UpsertAllSpec(predictions, participantId, ws);
  }

  /** Re-scoring keeps stored points on the scale: every computed value is 3, 1 or 0. */
  lemma UpdateMatchPredictionsInScale(db: Db, matchId: int)
    requires StoreInScale(db.predictions)
    requires UpdateMatchPredictions(db, matchId).Success?
    ensures StoreInScale(UpdateMatchPredictions(db, matchId).value.0.predictions)
  {
    var db' := UpdateMatchPredictions(db, matchId).value.0;
    var m := FindMatch(db.matches, matchId).value;
    forall k | k in db'.predictions ensures InScale(db'.predictions[k].points) {
      if k.matchId == matchId {
        assert db'.predictions == Rescore(db.predictions, m);
        var p := db.predictions[k];
        var v := CalculatePoints(p.homeScore, p.awayScore, m.homeScore.value, m.awayScore.value);
        assert v == 3 || v == 1 || v == 0;
      }
    }
  }

  // ---------------------------------------------------------------------------
  // ORDER BY total_points DESC, exact_scores DESC
  // ---------------------------------------------------------------------------

  /** `a` may come before `b`: more points, or as many points and at least as many exact scores. */
  predicate RanksAbove(a: Standing, b: Standing) {
    a.totalPoints > b.totalPoints || (a.totalPoints == b.totalPoints && a.exactScores >= b.exactScores)
  }

  predicate Ordered(s: seq<Standing>) {
    forall i, j :: 0 <= i < j < |s| ==> RanksAbove(s[i], s[j])
  }

  /** A standing that ranks above every standing of an ordered list can go in front of it. */
  lemma ConsOrdered(h: Standing, t: seq<Standing>)
    requires Ordered(t) && forall j :: 0 <= j < |t| ==> RanksAbove(h, t[j])
    ensures Ordered([h] + t)
  {
    var r := [h] + t;
    forall i, j | 0 <= i < j < |r| ensures RanksAbove(r[i], r[j]) {
      assert r[j] == t[j - 1];
      if i > 0 {
        assert r[i] == t[i - 1];
      }
    }
  }

  /** The head of an ordered list ranks above everything its tail holds after inserting `x` below the head. */
  lemma HeadAboveInserted(s: seq<Standing>, x: Standing, tail: seq<Standing>)
    requires s != [] && Ordered(s) && RanksAbove(s[0], x)
    requires multiset(tail) == multiset(s[1..]) + multiset{x}
    ensures forall j :: 0 <= j < |tail| ==> RanksAbove(s[0], tail[j])
  {
    forall j | 0 <= j < |tail| ensures RanksAbove(s[0], tail[j]) {
      assert tail[j] in multiset(tail);
      if tail[j] != x {
        assert tail[j] in s[1..];
        var k :| 0 <= k < |s[1..]| && s[1..][k] == tail[j];
        assert s[k + 1] == tail[j];
      }
    }
  }

  lemma InsertBelowHead(s: seq<Standing>, x: Standing, tail: seq<Standing>)
    requires s != [] && RanksAbove(s[0], x)
    requires multiset(tail) == multiset(s[1..]) + multiset{x}
    requires Ordered(s) ==> Ordered(tail)
    ensures Ordered(s) ==> Ordered([s[0]] + tail)
  {
    if Ordered(s) {
      HeadAboveInserted(s, x, tail);
      ConsOrdered(s[0], tail);
    }
  }

  /** Inserting into an ordered list, after every standing that ranks above or level. */
  function InsertStanding(x: Standing, s: seq<Standing>): (r: seq<Standing>)
    ensures multiset(r) == multiset(s) + multiset{x}
    ensures Ordered(s) ==> Ordered(r)
  {
    if s == [] then [x]
    else if RanksAbove(x, s[0]) && !RanksAbove(s[0], x) then [x] + s
    else
      var tail := InsertStanding(x, s[1..]);
      assert s == [s[0]] + s[1..];
      InsertBelowHead(s, x, tail);
      [s[0]] + tail
  }

  /** The standings in leaderboard order: a permutation that is ordered. */
  function SortStandings(s: seq<Standing>): (r: seq<Standing>)
    ensures multiset(r) == multiset(s)
    ensures Ordered(r)
  {
    if s == [] then []
    else
      assert s == [s[0]] + s[1..];
      InsertStanding(s[0], SortStandings(s[1..]))
  }

  /** In leaderboard order the totals never increase. */
  lemma OrderedTotalsDescend(s: seq<Standing>)
    requires Ordered(s)
    ensures forall i, j :: 0 <= i < j < |s| ==> s[i].totalPoints >= s[j].totalPoints
  {
  }

  // ---------------------------------------------------------------------------
  // getLeaderboard
  // ---------------------------------------------------------------------------

  /** A leaderboard row: the standing, the preview slots and the shown matches. */
  datatype LeaderboardEntry = LeaderboardEntry(standing: Standing, nextPredictions: seq<PreviewPrediction>, nextMatches: seq<Match>)

  function StandingTotal(s: Standing): int {
    s.totalPoints
  }

  function TotalOf(e: LeaderboardEntry): int {
    StandingTotal(e.standing)
  }

  /** The leaderboard rows before ranking: each standing with its preview. */
  function Entries(standings: seq<Standing>, rows: seq<PredictionRow>, shown: seq<Match>): (r: seq<LeaderboardEntry>)
    ensures |r| == |standings|
    ensures forall i :: 0 <= i < |r| ==> r[i].standing == standings[i]
    ensures forall i :: 0 <= i < |r| ==> r[i].nextMatches == shown
    ensures forall i :: 0 <= i < |r| ==> r[i].nextPredictions == PreviewRow(rows, MatchIds(shown), standings[i].id)
  {
    var matchIds := MatchIds(shown);
    var grouped := GroupByParticipant(NextPredictions(rows, matchIds));
    seq(|standings|, i requires 0 <= i < |standings| =>
      LeaderboardEntry(standings[i], PadPredictions(GroupOf(grouped, standings[i].id), matchIds), shown))
  }

  /** The standings of a leaderboard, in its order. */
  function StandingsIn(r: seq<Ranked<LeaderboardEntry>>): (s: seq<Standing>)
    ensures |s| == |r|
    ensures forall i :: 0 <= i < |r| ==> s[i] == r[i].entry.standing
  {
    seq(|r|, i requires 0 <= i < |r| => r[i].entry.standing)
  }

  /**
    `getLeaderboard` without a competition: the ordered standings, each with the
    preview of the selected matches, ranked by total points. The early returns for
    no candidates or no selected match give the same rows as the general path with
    an empty selection.
  */
  function GetLeaderboard(participants: seq<Participant>, rows: seq<PredictionRow>, candidates: seq<Match>)
    : (r: seq<Ranked<LeaderboardEntry>>)
    ensures |r| == |participants|
    ensures multiset(StandingsIn(r)) == multiset(Standings(participants, rows))
    ensures Ordered(StandingsIn(r))
    ensures forall i :: 0 <= i < |r| ==> r[i].entry.nextMatches == SelectPreview(candidates)
    ensures forall i :: 0 <= i < |r| ==>
              r[i].entry.nextPredictions == PreviewRow(rows, MatchIds(SelectPreview(candidates)), r[i].entry.standing.id)
    ensures forall i :: 0 <= i < |r| ==> (r[i].rank != "" <==> i == 0 || TotalOf(r[i].entry) != TotalOf(r[i - 1].entry))
    ensures forall i :: 0 <= i < |r| && r[i].rank != "" ==>
              r[i].rank == RankLabel(RankCount(StandingsIn(r), StandingTotal, i + 1))
  {
    var standings := SortStandings(Standings(participants, rows));
    var entries := Entries(standings, rows, SelectPreview(candidates));
    var r := AssignRanks(entries, TotalOf);
    assert StandingsIn(r) == standings;
    assert forall n :: 0 <= n <= |r| ==> RankCount(entries, TotalOf, n) == RankCount(standings, StandingTotal, n) by {
      forall n | 0 <= n <= |r| ensures RankCount(entries, TotalOf, n) == RankCount(standings, StandingTotal, n) {
        RankCountOfTotals(entries, TotalOf, standings, StandingTotal, n);
      }
    }
    assert |standings| == |multiset(standings)| == |participants|;
    r
  }

  /**
    Over a listing of the store, each leaderboard row's preview slot `j` holds the
    participant's stored scores for the j-th shown match, or a null pair.
  */
  lemma GetLeaderboardPreview(participants: seq<Participant>, rows: seq<PredictionRow>, predictions: map<PredictionKey, Prediction>,
                              candidates: seq<Match>)
    requires ListsTable(rows, predictions)
    ensures var r := GetLeaderboard(participants, rows, candidates);
            var shown := SelectPreview(candidates);
            forall i, j :: 0 <= i < |r| && 0 <= j < |shown| ==>
              var key := PredictionKey(r[i].entry.standing.id, shown[j].id);
              r[i].entry.nextPredictions[j]
                == if key in predictions
                   then PreviewPrediction(shown[j].id, Some(predictions[key].homeScore), Some(predictions[key].awayScore))
                   else PreviewPrediction(shown[j].id, None, None)
  {
    var r := GetLeaderboard(participants, rows, candidates);
    var shown := SelectPreview(candidates);
    forall i | 0 <= i < |r| {
      PreviewRowFromStore(rows, predictions, MatchIds(shown), r[i].entry.standing.id);
    }
  }
}
