/** The application's fixed vocabulary: the point scale, separators and match statuses. */
module Constants {

  /** Points for an exactly predicted score. */
  const PerfectPrediction: int := 3
  /** Points for the right winner (or a draw) with the wrong score. */
  const GoodPrediction: int := 1
  /** Points for a wrong outcome. */
  const BadPrediction: int := 0

  /** Between the two team names of a match. */
  const TeamsSeparator: string := "-"
  /** Between the two sides of a score. */
  const ScoreSeparator: string := ":"
  /** Shown where a match has no result yet. */
  const NoResult: string := "-"

  const Scheduled: string := "scheduled"
  const Live: string := "live"
  const Finished: string := "finished"

  /** Every status a match can be in. */
  const MatchStatuses: set<string> := {Scheduled, Live, Finished}
  /** The statuses of a match whose result may still change, in declaration order. */
  const NonFinishedStatuses: seq<string> := [Live, Scheduled]
  /** The status of a match whose result is final. */
  const FinishedStatus: string := Finished

  /** The point scale is strictly ordered: exact over outcome over wrong. */
  lemma PointScale()
    ensures PerfectPrediction > GoodPrediction > BadPrediction == 0
  {
  }

  /** The status vocabulary has exactly three distinct words. */
  lemma StatusVocabulary()
    ensures |MatchStatuses| == 3
    ensures MatchStatuses == {"scheduled", "live", "finished"}
  {
    assert Scheduled != Live && Live != Finished && Scheduled != Finished;
  }

  /** The non-finished statuses and the finished status partition the vocabulary. */
  lemma StatusPartition()
    ensures (set s | s in NonFinishedStatuses) + {FinishedStatus} == MatchStatuses
    ensures FinishedStatus !in NonFinishedStatuses
    ensures |NonFinishedStatuses| == 2 && NonFinishedStatuses[0] != NonFinishedStatuses[1]
  {
    assert Live != Finished && Scheduled != Finished && Live != Scheduled;
  }

  /** Scores and team names use different separators; a missing result shows the team separator. */
  lemma Separators()
    ensures ScoreSeparator == ":" && TeamsSeparator == "-" && NoResult == "-"
    ensures ScoreSeparator != TeamsSeparator && NoResult == TeamsSeparator
  {
  }
}
