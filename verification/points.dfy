/**
  Scoring a single prediction against a result (`calculatePoints`) and rendering a
  score pair (`formatScore`).
*/
module Points {
  import opened Wrappers
  import opened Text
  import opened Constants

  /** The class of a result: who won, or a draw. */
  datatype Outcome = HomeWin | AwayWin | Draw

  /** The class of a score pair, by comparing the two sides. */
  function OutcomeOf(home: int, away: int): Outcome {
    if home > away then HomeWin else if home < away then AwayWin else Draw
  }

  /** The sign of an integer: -1, 0 or 1. */
  function Sign(x: int): int {
    if x > 0 then 1 else if x < 0 then -1 else 0
  }

  /**
    `calculatePoints`: 3 for the exact score, otherwise 1 when the predicted and the
    actual result have the same class (sign of home minus away), otherwise 0.
  */
  function CalculatePoints(predictedHome: int, predictedAway: int, actualHome: int, actualAway: int): (p: int)
    ensures p == PerfectPrediction || p == GoodPrediction || p == BadPrediction
    ensures p == PerfectPrediction <==> predictedHome == actualHome && predictedAway == actualAway
    ensures p == GoodPrediction <==>
              !(predictedHome == actualHome && predictedAway == actualAway)
              && Sign(predictedHome - predictedAway) == Sign(actualHome - actualAway)
    ensures p == BadPrediction <==> Sign(predictedHome - predictedAway) != Sign(actualHome - actualAway)
  {
    if predictedHome == actualHome && predictedAway == actualAway then PerfectPrediction
    else if OutcomeOf(predictedHome, predictedAway) == OutcomeOf(actualHome, actualAway) then GoodPrediction
    else BadPrediction
  }

  /** Swapping home and away in both pairs at once does not change the points. */
  lemma CalculatePointsSwapSides(ph: int, pa: int, ah: int, aa: int)
    ensures CalculatePoints(pa, ph, aa, ah) == CalculatePoints(ph, pa, ah, aa)
  {
  }

  /** Exchanging the predicted pair with the actual pair does not change the points. */
  lemma CalculatePointsExchangePairs(ph: int, pa: int, ah: int, aa: int)
    ensures CalculatePoints(ah, aa, ph, pa) == CalculatePoints(ph, pa, ah, aa)
  {
  }

  /** The worked examples of the scoring rule. */
  lemma CalculatePointsExamples()
    ensures CalculatePoints(2, 1, 2, 1) == 3
    ensures CalculatePoints(2, 1, 3, 0) == 1
    ensures CalculatePoints(2, 1, 1, 2) == 0
    ensures CalculatePoints(1, 1, 0, 0) == 1
    ensures CalculatePoints(1, 1, 2, 1) == 0
  {
  }

  // ---------------------------------------------------------------------------
  // formatScore
  // ---------------------------------------------------------------------------

  /** One side of a rendered score: the number, or "-" when absent (`??`). */
  function ScoreSide(score: Option<int>): string {
    match score
    case Some(n) => IntToString(n)
    case None => "-"
  }

  /**
    `formatScore`: the home side, the score separator, the away side, where an
    absent side is "-" and every present number (0 included) is its decimal form.
  */
  function FormatScore(homeScore: Option<int>, awayScore: Option<int>): (r: string)
    ensures Split(r, ':') == [ScoreSide(homeScore), ScoreSide(awayScore)]
    ensures homeScore.None? <==> Split(r, ':')[0] == "-"
    ensures awayScore.None? <==> Split(r, ':')[1] == "-"
  {
    SplitJoin([ScoreSide(homeScore), ScoreSide(awayScore)], ':');
    ScoreSide(homeScore) + ScoreSeparator + ScoreSide(awayScore)
  }

  /** Reads one side of a rendered score back: "-" is absent, else a signed decimal. */
  function ParseScoreSide(s: string): Option<Option<int>> {
    if s == "-" then Some(None)
    else match ParseInt(s)
      case Some(n) => Some(Some(n))
      case None => None
  }

  /** Reads a rendered score back into its two sides; `None` when it is not one. */
  function ParseScore(s: string): Option<(Option<int>, Option<int>)> {
    var parts := Split(s, ':');
    if |parts| != 2 then None
    else match (ParseScoreSide(parts[0]), ParseScoreSide(parts[1]))
      case (Some(h), Some(a)) => Some((h, a))
      case _ => None
  }

  lemma ParseScoreSideRoundTrip(score: Option<int>)
    ensures ParseScoreSide(ScoreSide(score)) == Some(score)
  {
    match score
    case None =>
    case Some(n) =>
      ParseIntRoundTrip(n);
      assert IntToString(n) != "-";
  }

  /** A rendered score reads back as the pair it was rendered from. */
  lemma FormatScoreRoundTrip(homeScore: Option<int>, awayScore: Option<int>)
    ensures ParseScore(FormatScore(homeScore, awayScore)) == Some((homeScore, awayScore))
  {
    ParseScoreSideRoundTrip(homeScore);
    ParseScoreSideRoundTrip(awayScore);
  }

  /** Scores render as e.g. "2:1", "0:0", "-:3" and "-:-". */
  lemma FormatScoreExamples()
    ensures FormatScore(Some(2), Some(1)) == "2:1"
    ensures FormatScore(Some(0), Some(0)) == "0:0"
    ensures FormatScore(None, Some(3)) == "-:3"
    ensures FormatScore(None, None) == "-:-"
  {
    assert NatToString(2) == "2" && NatToString(1) == "1";
    assert NatToString(0) == "0" && NatToString(3) == "3";
  }
}
