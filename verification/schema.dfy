/**
  The persistent data: teams, matches, participants and predictions, with the
  constraints the database schema declares (primary keys, unique pairs, column
  widths, nullability, defaults, references) stated as predicates over an
  immutable store. Predictions are a map keyed by (participant, match), so the
  unique pair constraint holds by construction.
*/
module Schema {
  import opened Wrappers

  /** A team as joined into a match row (`with: { homeTeam: true }`). */
  datatype Team = Team(id: int, competitionId: int, name: string, code: string, group: Option<string>)

  /** A match. Both scores are independently nullable; the status column is free text. */
  datatype Match = Match(
    id: int,
    competitionId: int,
    homeTeam: Team,
    awayTeam: Team,
    homeScore: Option<int>,
    awayScore: Option<int>,
    stage: string,
    matchDate: int,
    status: Option<string>,
    matchNumber: int)

  datatype Participant = Participant(id: int, name: string, email: Option<string>)

  /** A stored prediction: both scores are NOT NULL, points is nullable with default 0. */
  datatype Prediction = Prediction(homeScore: int, awayScore: int, points: Option<int>)

  /** The (participant, match) pair that is unique among predictions. */
  datatype PredictionKey = PredictionKey(participantId: int, matchId: int)

  /** The database; `nextParticipantId` is the participants' serial sequence. */
  datatype Db = Db(
    teams: seq<Team>,
    matches: seq<Match>,
    participants: seq<Participant>,
    predictions: map<PredictionKey, Prediction>,
    nextParticipantId: int)

  /** A prediction as a row of the predictions table. */
  datatype PredictionRow = PredictionRow(participantId: int, matchId: int, homeScore: int, awayScore: int, points: Option<int>)

  function KeyOf(r: PredictionRow): PredictionKey {
    PredictionKey(r.participantId, r.matchId)
  }

  // ---------------------------------------------------------------------------
  // column constraints
  // ---------------------------------------------------------------------------

  /** Team name at most 100 characters, code at most 3, group at most 1 (or null). */
  predicate ValidTeam(t: Team) {
    |t.name| <= 100 && |t.code| <= 3 && (t.group.Some? ==> |t.group.value| <= 1)
  }

  /** Participant name at most 100 characters, email at most 255 (or null). */
  predicate ValidParticipant(p: Participant) {
    |p.name| <= 100 && (p.email.Some? ==> |p.email.value| <= 255)
  }

  /** Match stage at most 50 characters. */
  predicate ValidMatch(m: Match) {
    |m.stage| <= 50
  }

  /**
    What a `varchar(n)` column stores for a string: the string itself when it
    fits; when it is longer, its first `n` characters if everything after them is
    a space (PostgreSQL truncates trailing spaces), and otherwise nothing, since
    the insert raises an error.
  */
  function VarcharValue(s: string, n: nat): (r: Option<string>)
    ensures r.Some? ==> |r.value| <= n && r.value <= s
    ensures r.Some? <==> |s| <= n || forall i :: n <= i < |s| ==> s[i] == ' '
    ensures |s| <= n ==> r == Some(s)
  {
    if |s| <= n then Some(s)
    else if forall i :: n <= i < |s| ==> s[i] == ' ' then Some(s[..n])
    else None
  }

  predicate UniqueTeamIds(teams: seq<Team>) {
    forall i, j :: 0 <= i < j < |teams| ==> teams[i].id != teams[j].id
  }

  /** A team code is unique within its competition. */
  predicate UniqueTeamCodes(teams: seq<Team>) {
    forall i, j :: 0 <= i < j < |teams| && teams[i].competitionId == teams[j].competitionId ==>
      teams[i].code != teams[j].code
  }

  predicate UniqueMatchIds(matches: seq<Match>) {
    forall i, j :: 0 <= i < j < |matches| ==> matches[i].id != matches[j].id
  }

  /** A match number is unique within its competition. */
  predicate UniqueMatchNumbers(matches: seq<Match>) {
    forall i, j :: 0 <= i < j < |matches| && matches[i].competitionId == matches[j].competitionId ==>
      matches[i].matchNumber != matches[j].matchNumber
  }

  predicate UniqueParticipantIds(participants: seq<Participant>) {
    forall i, j :: 0 <= i < j < |participants| ==> participants[i].id != participants[j].id
  }

  predicate HasParticipant(db: Db, id: int) {
    exists i :: 0 <= i < |db.participants| && db.participants[i].id == id
  }

  predicate HasMatch(db: Db, id: int) {
    exists i :: 0 <= i < |db.matches| && db.matches[i].id == id
  }

  /** The constraints on teams, matches and participants: keys, unique codes and numbers, character widths. */
  predicate ValidEntities(db: Db) {
    && (forall t :: t in db.teams ==> ValidTeam(t))
    && UniqueTeamIds(db.teams)
    && UniqueTeamCodes(db.teams)
    && (forall m :: m in db.matches ==> m.homeTeam in db.teams && m.awayTeam in db.teams)
    && UniqueMatchIds(db.matches)
    && UniqueMatchNumbers(db.matches)
    && (forall m :: m in db.matches ==> ValidMatch(m))
    && UniqueParticipantIds(db.participants)
    && (forall p :: p in db.participants ==> ValidParticipant(p))
    && (forall p :: p in db.participants ==> p.id < db.nextParticipantId)
  }

  /** Every prediction references an existing participant and an existing match. */
  predicate ValidReferences(db: Db) {
    forall k :: k in db.predictions ==> HasParticipant(db, k.participantId) && HasMatch(db, k.matchId)
  }

  /** Every constraint of the schema: keys, unique pairs, widths and references. */
  predicate ValidDb(db: Db) {
    ValidEntities(db) && ValidReferences(db)
  }

  /** Replacing the predictions by ones with valid references keeps the store valid. */
  lemma WithPredictionsValid(db: Db, predictions: map<PredictionKey, Prediction>)
    requires ValidEntities(db)
    requires forall k :: k in predictions ==> HasParticipant(db, k.participantId) && HasMatch(db, k.matchId)
    ensures ValidDb(db.(predictions := predictions))
  {
    var db' := db.(predictions := predictions);
    assert forall id :: HasParticipant(db', id) == HasParticipant(db, id);
    assert forall id :: HasMatch(db', id) == HasMatch(db, id);
  }

  // ---------------------------------------------------------------------------
  // insert with defaults
  // ---------------------------------------------------------------------------

  /**
    Inserting a prediction without points: the row gets the column default 0, and
    every other prediction is as it was.
  */
  function InsertPrediction(predictions: map<PredictionKey, Prediction>, key: PredictionKey, homeScore: int, awayScore: int)
    : (r: map<PredictionKey, Prediction>)
    requires key !in predictions
    ensures forall k :: k in r <==> k in predictions || k == key
    ensures r[key].points == Some(0)
    ensures r[key].homeScore == homeScore && r[key].awayScore == awayScore
    ensures forall k :: k in predictions ==> r[k] == predictions[k]
  {
    predictions[key := Prediction(homeScore, awayScore, Some(0))]
  }

  // ---------------------------------------------------------------------------
  // the predictions table as a list of rows
  // ---------------------------------------------------------------------------

  /** The row a map entry is stored as. */
  function RowOf(k: PredictionKey, p: Prediction): PredictionRow {
    PredictionRow(k.participantId, k.matchId, p.homeScore, p.awayScore, p.points)
  }

  /** No two rows share a (participant, match) pair. */
  predicate UniquePairs(rows: seq<PredictionRow>) {
    forall i, j :: 0 <= i < j < |rows| ==> KeyOf(rows[i]) != KeyOf(rows[j])
  }

  /** `rows` lists the predictions of the store, each exactly once, in some order. */
  ghost predicate ListsTable(rows: seq<PredictionRow>, predictions: map<PredictionKey, Prediction>) {
    && UniquePairs(rows)
    && (forall i :: 0 <= i < |rows| ==> KeyOf(rows[i]) in predictions && rows[i] == RowOf(KeyOf(rows[i]), predictions[KeyOf(rows[i])]))
    && (forall k :: k in predictions ==> exists i :: 0 <= i < |rows| && KeyOf(rows[i]) == k)
  }

  function KeysOf(rows: seq<PredictionRow>): set<PredictionKey> {
    set i | 0 <= i < |rows| :: KeyOf(rows[i])
  }

  /** Rows with pairwise distinct keys have as many distinct keys as rows. */
  lemma {:induction false} UniquePairsCard(rows: seq<PredictionRow>)
    requires UniquePairs(rows)
    ensures |KeysOf(rows)| == |rows|
  {
    if rows != [] {
      var init := rows[..|rows| - 1];
      UniquePairsCard(init);
      assert KeysOf(rows) == KeysOf(init) + {KeyOf(rows[|rows| - 1])};
      assert KeyOf(rows[|rows| - 1]) !in KeysOf(init);
    }
  }

  /** A listing of the store has one row per stored prediction. */
  lemma ListsTableSize(rows: seq<PredictionRow>, predictions: map<PredictionKey, Prediction>)
    requires ListsTable(rows, predictions)
    ensures |rows| == |predictions|
  {
    UniquePairsCard(rows);
    assert KeysOf(rows) == predictions.Keys;
  }
}
