/**
  The two ways predictions are written: confirming parsed predictions (participant
  looked up by name, matches by team codes) and manual entry (participant and
  match ids given). Both upsert: an existing (participant, match) prediction gets
  its scores overwritten and keeps its points, a missing one is inserted with the
  default points 0. Neither recomputes points, so stored points can go stale until
  the next recalculation.
*/
module Upserts {
  import opened Wrappers
  import opened Schema

  /** One score pair to store for a match. */
  datatype Write = Write(matchId: int, homeScore: int, awayScore: int)

  /** Upserting one prediction of `participantId`: nothing but its (participant, match) entry changes. */
  function Upsert(predictions: map<PredictionKey, Prediction>, participantId: int, w: Write): (r: map<PredictionKey, Prediction>)
    ensures forall k :: k in r <==> k in predictions || k == PredictionKey(participantId, w.matchId)
    ensures var k := PredictionKey(participantId, w.matchId);
            r[k] == Prediction(w.homeScore, w.awayScore, if k in predictions then predictions[k].points else Some(0))
    ensures forall k :: k in predictions && k != PredictionKey(participantId, w.matchId) ==> r[k] == predictions[k]
  {
    var key := PredictionKey(participantId, w.matchId);
    if key in predictions then
      predictions[key := predictions[key].(homeScore := w.homeScore, awayScore := w.awayScore)]
    else
      InsertPrediction(predictions, key, w.homeScore, w.awayScore)
  }

  /** Upserting a list of writes in order. */
  function UpsertAll(predictions: map<PredictionKey, Prediction>, participantId: int, ws: seq<Write>): map<PredictionKey, Prediction>
    decreases |ws|
  {
    if ws == [] then predictions
    else Upsert(UpsertAll(predictions, participantId, ws[..|ws| - 1]), participantId, ws[|ws| - 1])
  }

  /** Upserting one more write after a list. */
  lemma UpsertAllSnoc(predictions: map<PredictionKey, Prediction>, participantId: int, ws: seq<Write>, w: Write)
    ensures UpsertAll(predictions, participantId, ws + [w]) == Upsert(UpsertAll(predictions, participantId, ws), participantId, w)
  {
    assert (ws + [w])[..|ws|] == ws;
  }

  /** The position of the last write for a match, if any. */
  function LastIndex(ws: seq<Write>, matchId: int): (r: Option<nat>)
    ensures r.Some? ==> r.value < |ws| && ws[r.value].matchId == matchId
    ensures r.Some? ==> forall j :: r.value < j < |ws| ==> ws[j].matchId != matchId
    ensures r.None? ==> forall j :: 0 <= j < |ws| ==> ws[j].matchId != matchId
    decreases |ws|
  {
    if ws == [] then None
    else if ws[|ws| - 1].matchId == matchId then Some(|ws| - 1)
    else LastIndex(ws[..|ws| - 1], matchId)
  }

  /** The last write for a match, if any. */
  function LastWrite(ws: seq<Write>, matchId: int): (r: Option<Write>)
    ensures r.Some? ==> r.value in ws && r.value.matchId == matchId
  {
    match LastIndex(ws, matchId)
    case None => None
    case Some(i) => Some(ws[i])
  }

  /** The entry for `participantId` and match `k.matchId` is written by some write. */
  predicate Written(ws: seq<Write>, participantId: int, k: PredictionKey) {
    k.participantId == participantId && LastWrite(ws, k.matchId).Some?
  }

  /**
    What upserting a list does: the entries written are those of `participantId`
    for the matches written to; each holds the scores of the LAST write for its
    match and its old points (0 when it is new); every other entry is unchanged.
  */
  lemma {:induction false} UpsertAllSpec(predictions: map<PredictionKey, Prediction>, participantId: int, ws: seq<Write>)
    ensures var r := UpsertAll(predictions, participantId, ws);
            && (forall k :: k in r <==> k in predictions || Written(ws, participantId, k))
            && (forall k :: k in r && Written(ws, participantId, k) ==>
                  var w := LastWrite(ws, k.matchId).value;
                  r[k] == Prediction(w.homeScore, w.awayScore, if k in predictions then predictions[k].points else Some(0)))
            && (forall k :: k in predictions && !Written(ws, participantId, k) ==> r[k] == predictions[k])
    decreases |ws|
  {
    if ws != [] {
      var init := ws[..|ws| - 1];
      var w := ws[|ws| - 1];
      UpsertAllSpec(predictions, participantId, init);
      forall k ensures Written(ws, participantId, k) <==> Written(init, participantId, k) || k == PredictionKey(participantId, w.matchId) {
        if k.participantId == participantId && LastWrite(init, k.matchId).Some? {
          var i := LastIndex(init, k.matchId).value;
          assert ws[i] == init[i];
        }
      }
    }
  }

  /**
    Inserting this write for `participantId` violates a foreign key: the pair is not
    stored yet, and the participant or the match does not exist.
  */
  predicate InsertRejected(db: Db, participantId: int, w: Write) {
    PredictionKey(participantId, w.matchId) !in db.predictions
    && !(HasParticipant(db, participantId) && HasMatch(db, w.matchId))
  }

  /**
    Upserting writes none of whose inserts breaks a reference keeps the schema's
    constraints; in particular writes for an existing participant and existing
    matches do.
  */
  lemma UpsertAllKeepsValid(db: Db, participantId: int, ws: seq<Write>)
    requires ValidDb(db)
    requires forall i :: 0 <= i < |ws| ==> !InsertRejected(db, participantId, ws[i])
    ensures ValidDb(db.(predictions := UpsertAll(db.predictions, participantId, ws)))
  {
    UpsertAllSpec(db.predictions, participantId, ws);
    var r := UpsertAll(db.predictions, participantId, ws);
    forall k | k in r ensures HasParticipant(db, k.participantId) && HasMatch(db, k.matchId) {
      if Written(ws, participantId, k) && k !in db.predictions {
        var i := LastIndex(ws, k.matchId).value;
        assert !InsertRejected(db, participantId, ws[i]);
      }
    }
    WithPredictionsValid(db, r);
  }

  // ---------------------------------------------------------------------------
  // manual entry
  // ---------------------------------------------------------------------------

  /** The position of the first write whose insert breaks a reference, if any. */
  function FirstRejected(db: Db, participantId: int, ws: seq<Write>): (r: Option<nat>)
    ensures r.Some? ==> r.value < |ws| && InsertRejected(db, participantId, ws[r.value])
    ensures r.Some? ==> forall j :: 0 <= j < r.value ==> !InsertRejected(db, participantId, ws[j])
    ensures r.None? ==> forall j :: 0 <= j < |ws| ==> !InsertRejected(db, participantId, ws[j])
    decreases |ws|
  {
    if ws == [] then None
    else if InsertRejected(db, participantId, ws[0]) then Some(0)
    else
      match FirstRejected(db, participantId, ws[1..])
      case None => None
      case Some(i) => Some(i + 1)
  }

  /** The writes manual entry gets through: all of them, or those before the first rejected insert. */
  function Applied(db: Db, participantId: int, ws: seq<Write>): (r: seq<Write>)
    ensures r <= ws
    ensures FirstRejected(db, participantId, ws).None? ==> r == ws
    ensures FirstRejected(db, participantId, ws).Some? ==> |r| == FirstRejected(db, participantId, ws).value
    ensures forall j :: 0 <= j < |r| ==> !InsertRejected(db, participantId, r[j])
  {
    match FirstRejected(db, participantId, ws)
    case None => ws
    case Some(i) => ws[..i]
  }

  /** The store after a manual request, and the error it ended with, if any. */
  datatype ManualResponse = ManualResponse(store: Db, error: Option<string>)

  const ForeignKeyViolation: string := "insert or update on table \"predictions\" violates foreign key constraint"

  /**
    Manual entry: the items are upserted for the given participant in order, with
    no filtering. An insert naming a participant or match that does not exist
    raises, and the route has no handler: the request fails and the writes before
    it stay stored. Other participants' predictions are untouched, a later item for
    the same match wins, and the store stays valid.
  */
  method ManualPredictions(db: Db, participantId: int, items: seq<Write>) returns (r: ManualResponse)
    ensures r.error.None? <==> FirstRejected(db, participantId, items).None?
    ensures r.store == db.(predictions := UpsertAll(db.predictions, participantId, Applied(db, participantId, items)))
    ensures var done := Applied(db, participantId, items);
            && (forall k :: k in r.store.predictions <==> k in db.predictions || Written(done, participantId, k))
            && (forall k :: k in db.predictions && k.participantId != participantId ==> r.store.predictions[k] == db.predictions[k])
            && (forall k :: k in r.store.predictions && Written(done, participantId, k) ==>
                  var w := LastWrite(done, k.matchId).value;
                  && r.store.predictions[k].homeScore == w.homeScore && r.store.predictions[k].awayScore == w.awayScore
                  && r.store.predictions[k].points == (if k in db.predictions then db.predictions[k].points else Some(0)))
    ensures ValidDb(db) ==> ValidDb(r.store)
  {
    var predictions, rejected := ManualWrites(db, participantId, items);
    var done := Applied(db, participantId, items);
    UpsertAllSpec(db.predictions, participantId, done);
    if ValidDb(db) {
      UpsertAllKeepsValid(db, participantId, done);
    }
    r := ManualResponse(db.(predictions := predictions), if rejected.None? then None else Some(ForeignKeyViolation));
  }

  /** A key the earlier writes stored was stored before them or inserted by one of them, so its references exist. */
  lemma UpsertedKeyAccepted(db: Db, participantId: int, done: seq<Write>, w: Write)
    requires forall j :: 0 <= j < |done| ==> !InsertRejected(db, participantId, done[j])
    ensures PredictionKey(participantId, w.matchId) in UpsertAll(db.predictions, participantId, done) ==>
              !InsertRejected(db, participantId, w)
    ensures PredictionKey(participantId, w.matchId) !in UpsertAll(db.predictions, participantId, done) ==>
              PredictionKey(participantId, w.matchId) !in db.predictions
  {
    UpsertAllSpec(db.predictions, participantId, done);
    var k := PredictionKey(participantId, w.matchId);
    if k in UpsertAll(db.predictions, participantId, done) && k !in db.predictions {
      var i := LastIndex(done, w.matchId).value;
      assert !InsertRejected(db, participantId, done[i]);
    }
  }

  /**
    The manual route's loop: each write updates the stored pair or inserts a new
    one, and the loop stops at the first insert whose participant or match does
    not exist.
  */
  method ManualWrites(db: Db, participantId: int, ws: seq<Write>)
    returns (store: map<PredictionKey, Prediction>, rejected: Option<nat>)
    ensures rejected == FirstRejected(db, participantId, ws)
    ensures store == UpsertAll(db.predictions, participantId, Applied(db, participantId, ws))
  {
    store := db.predictions;
    var i := 0;
    while i < |ws|
      invariant 0 <= i <= |ws|
      invariant store == UpsertAll(db.predictions, participantId, ws[..i])
      invariant forall j :: 0 <= j < i ==> !InsertRejected(db, participantId, ws[j])
    {
      var w := ws[i];
      var key := PredictionKey(participantId, w.matchId);
      UpsertedKeyAccepted(db, participantId, ws[..i], w);
      if key in store {
        assert !InsertRejected(db, participantId, w);
        store := store[key := store[key].(homeScore := w.homeScore, awayScore := w.awayScore)];
      } else if HasParticipant(db, participantId) && HasMatch(db, w.matchId) {
        store := InsertPrediction(store, key, w.homeScore, w.awayScore);
      } else {
        rejected := Some(i);
        return;
      }
      assert !InsertRejected(db, participantId, ws[i]);
      assert ws[..i + 1][..i] == ws[..i];
      i := i + 1;
    }
    rejected := None;
    assert ws[..|ws|] == ws;
  }

  /** The confirm route's loop: each write is upserted in turn, updating or inserting. */
  method UpsertWrites(predictions: map<PredictionKey, Prediction>, participantId: int, ws: seq<Write>)
    returns (store: map<PredictionKey, Prediction>)
    ensures store == UpsertAll(predictions, participantId, ws)
  {
    store := predictions;
    var i := 0;
    while i < |ws|
      invariant 0 <= i <= |ws|
      invariant store == UpsertAll(predictions, participantId, ws[..i])
    {
      var w := ws[i];
      var key := PredictionKey(participantId, w.matchId);
      if key in store {
        store := store[key := store[key].(homeScore := w.homeScore, awayScore := w.awayScore)];
      } else {
        store := InsertPrediction(store, key, w.homeScore, w.awayScore);
      }
      assert ws[..i + 1][..i] == ws[..i];
      i := i + 1;
    }
    assert ws[..|ws|] == ws;
  }

  // ---------------------------------------------------------------------------
  // confirming parsed predictions
  // ---------------------------------------------------------------------------

  /** A parsed prediction as the confirm request carries it: team codes and nullable scores. */
  datatype ConfirmItem = ConfirmItem(homeTeam: string, awayTeam: string, homeScore: Option<int>, awayScore: Option<int>)

  datatype ConfirmResult = ConfirmResult(store: Db, participantId: int, predictionsInserted: nat)

  /** The first participant with exactly this name. */
  function FindParticipantByName(participants: seq<Participant>, name: string): (r: Option<Participant>)
    ensures r.Some? <==> exists i :: 0 <= i < |participants| && participants[i].name == name
    ensures r.Some? ==> r.value in participants && r.value.name == name
  {
    if participants == [] then None
    else if participants[0].name == name then Some(participants[0])
    else FindParticipantByName(participants[1..], name)
  }

  /** The error PostgreSQL raises for a string too long for `varchar(100)`. */
  const NameTooLong: string := "value too long for type character varying(100)"

  /**
    Find or create: an existing participant with that name is used and nothing
    changes. Otherwise a participant with the next serial id is appended, its name
    stored as the `varchar(100)` column stores it; a name the column rejects makes
    the insert raise, and nothing is stored.
  */
  function FindOrCreateParticipant(db: Db, name: string): (r: Result<(Db, Participant)>)
    ensures FindParticipantByName(db.participants, name).Some? ==>
              r == Success((db, FindParticipantByName(db.participants, name).value))
    ensures FindParticipantByName(db.participants, name).None? ==>
              (r.Failure? <==> VarcharValue(name, 100).None?)
    ensures FindParticipantByName(db.participants, name).None? && r.Success? ==>
              && r.value.1 == Participant(db.nextParticipantId, VarcharValue(name, 100).value, None)
              && r.value.0 == db.(participants := db.participants + [r.value.1], nextParticipantId := db.nextParticipantId + 1)
    ensures r.Success? ==> r.value.1.name <= name && (|name| <= 100 ==> r.value.1.name == name)
    ensures r.Success? ==> HasParticipant(r.value.0, r.value.1.id)
  {
    match FindParticipantByName(db.participants, name)
    case Some(p) =>
      var i :| 0 <= i < |db.participants| && db.participants[i] == p;
      Success((db, p))
    case None =>
      match VarcharValue(name, 100)
      case None => Failure(NameTooLong)
      case Some(stored) =>
        var p := Participant(db.nextParticipantId, stored, None);
        var db' := db.(participants := db.participants + [p], nextParticipantId := db.nextParticipantId + 1);
        assert db'.participants[|db.participants|] == p;
        Success((db', p))
  }

  /** Finding or creating the participant keeps every modelled schema constraint, the name's width included. */
  lemma FindOrCreateKeepsValid(db: Db, name: string)
    requires ValidDb(db)
    ensures FindOrCreateParticipant(db, name).Success? ==> ValidDb(FindOrCreateParticipant(db, name).value.0)
  {
    if FindOrCreateParticipant(db, name).Success? {
      var (db', p) := FindOrCreateParticipant(db, name).value;
      forall k | k in db'.predictions ensures HasParticipant(db', k.participantId) {
        var i :| 0 <= i < |db.participants| && db.participants[i].id == k.participantId;
        assert db'.participants[i] == db.participants[i];
      }
    }
  }

  predicate HasCodes(m: Match, homeCode: string, awayCode: string) {
    m.homeTeam.code == homeCode && m.awayTeam.code == awayCode
  }

  /** The position of the first match, in list order, whose home and away team codes are the given ones. */
  function FirstWithCodes(matches: seq<Match>, homeCode: string, awayCode: string): (r: Option<nat>)
    ensures r.Some? ==> r.value < |matches| && HasCodes(matches[r.value], homeCode, awayCode)
    decreases |matches|
  {
    if matches == [] then None
    else if HasCodes(matches[0], homeCode, awayCode) then Some(0)
    else
      match FirstWithCodes(matches[1..], homeCode, awayCode)
      case None => None
      case Some(i) => Some(i + 1)
  }

  /** No match before the one found has the codes, and `None` means no match of the list has them. */
  lemma {:induction false} FirstWithCodesIsFirst(matches: seq<Match>, homeCode: string, awayCode: string)
    ensures var r := FirstWithCodes(matches, homeCode, awayCode);
            && (r.Some? ==> forall j :: 0 <= j < r.value ==> !HasCodes(matches[j], homeCode, awayCode))
            && (r.None? ==> forall j :: 0 <= j < |matches| ==> !HasCodes(matches[j], homeCode, awayCode))
    decreases |matches|
  {
    if matches != [] && !HasCodes(matches[0], homeCode, awayCode) {
      FirstWithCodesIsFirst(matches[1..], homeCode, awayCode);
    }
  }

  /** The first match, in list order, whose home and away team codes are the given ones. */
  function FindMatchByCodes(matches: seq<Match>, homeCode: string, awayCode: string): (r: Option<Match>)
    ensures r.Some? ==> r.value in matches && HasCodes(r.value, homeCode, awayCode)
  {
    match FirstWithCodes(matches, homeCode, awayCode)
    case None => None
    case Some(i) => Some(matches[i])
  }

  /** The write a confirm item turns into, or `None` when it is skipped (no such match, or a null score). */
  function Target(matches: seq<Match>, item: ConfirmItem): (r: Option<Write>)
    ensures r.None? <==> FindMatchByCodes(matches, item.homeTeam, item.awayTeam).None? || item.homeScore.None? || item.awayScore.None?
    ensures r.Some? ==> r.value == Write(FindMatchByCodes(matches, item.homeTeam, item.awayTeam).value.id,
                                         item.homeScore.value, item.awayScore.value)
  {
    match FindMatchByCodes(matches, item.homeTeam, item.awayTeam)
    case None => None
    case Some(m) =>
      if item.homeScore.None? || item.awayScore.None? then None
      else Some(Write(m.id, item.homeScore.value, item.awayScore.value))
  }

  /** The writes of the items that are not skipped, in item order. */
  function Resolve(matches: seq<Match>, items: seq<ConfirmItem>): (ws: seq<Write>)
    ensures |ws| <= |items|
    decreases |items|
  {
    if items == [] then []
    else
      var init := Resolve(matches, items[..|items| - 1]);
      match Target(matches, items[|items| - 1])
      case None => init
      case Some(w) => init + [w]
  }

  /** Some match of the list has this id. */
  predicate IsMatchId(matches: seq<Match>, id: int) {
    exists k :: 0 <= k < |matches| && matches[k].id == id
  }

  /** Every resolved write names a match of the list. */
  lemma {:induction false} ResolveMatches(matches: seq<Match>, items: seq<ConfirmItem>)
    ensures forall i :: 0 <= i < |Resolve(matches, items)| ==> IsMatchId(matches, Resolve(matches, items)[i].matchId)
    decreases |items|
  {
    if items != [] {
      var init := items[..|items| - 1];
      var last := items[|items| - 1];
      ResolveMatches(matches, init);
      var prev := Resolve(matches, init);
      var ws := Resolve(matches, items);
      var t := Target(matches, last);
      if t.Some? {
        assert ws == prev + [t.value];
        var k := FirstWithCodes(matches, last.homeTeam, last.awayTeam).value;
        assert matches[k].id == t.value.matchId;
        assert IsMatchId(matches, t.value.matchId);
      } else {
        assert ws == prev;
      }
      forall i | 0 <= i < |ws| ensures IsMatchId(matches, ws[i].matchId) {
        if i < |prev| {
          assert ws[i] == prev[i];
        }
      }
    }
  }

  /** A skipped item adds no write; a kept one adds exactly its write. */
  lemma ResolveSnoc(matches: seq<Match>, items: seq<ConfirmItem>, item: ConfirmItem)
    ensures Target(matches, item).None? ==> Resolve(matches, items + [item]) == Resolve(matches, items)
    ensures Target(matches, item).Some? ==> Resolve(matches, items + [item]) == Resolve(matches, items) + [Target(matches, item).value]
  {
    assert (items + [item])[..|items|] == items;
  }

  /**
    Confirming parsed predictions: find or create the participant by name, then for
    each item in order look up the first match with its team codes, skip it when
    there is none or a score is null, and upsert it otherwise. `predictionsInserted`
    counts the upserted items, updates and inserts alike. When the participant
    cannot be created the route's handler turns the error into a failure and nothing
    is stored.
  */
  method ConfirmPredictions(db: Db, participantName: string, items: seq<ConfirmItem>) returns (r: Result<ConfirmResult>)
    ensures r.Failure? <==> FindOrCreateParticipant(db, participantName).Failure?
    ensures r.Success? ==>
              var (db1, p) := FindOrCreateParticipant(db, participantName).value;
              && r.value.participantId == p.id
              && r.value.store == db1.(predictions := UpsertAll(db1.predictions, p.id, Resolve(db.matches, items)))
              && r.value.predictionsInserted == |Resolve(db.matches, items)|
    ensures r.Success? ==> r.value.store.matches == db.matches && r.value.store.teams == db.teams
  {
    var created := FindOrCreateParticipant(db, participantName);
    if created.Failure? {
      return Failure(created.error);
    }
    var db1, participant := created.value.0, created.value.1;
    var ws := ResolveItems(db.matches, items);
    var predictions := UpsertWrites(db1.predictions, participant.id, ws);
    r := Success(ConfirmResult(db1.(predictions := predictions), participant.id, |ws|));
  }

  /** The items' writes: each item's match is looked up and the item skipped when there is none or a score is null. */
  method ResolveItems(matches: seq<Match>, items: seq<ConfirmItem>) returns (ws: seq<Write>)
    ensures ws == Resolve(matches, items)
  {
    ws := [];
    var i := 0;
    while i < |items|
      invariant 0 <= i <= |items|
      invariant ws == Resolve(matches, items[..i])
    {
      ResolveSnoc(matches, items[..i], items[i]);
      assert items[..i + 1] == items[..i] + [items[i]];
      var target := Target(matches, items[i]);
      if target.Some? {
        ws := ws + [target.value];
      }
      i := i + 1;
    }
    assert items[..|items|] == items;
  }

  /**
    Confirming keeps every modelled schema constraint: new predictions reference the
    found or created participant and found matches.
  */
  lemma ConfirmKeepsValid(db: Db, participantName: string, items: seq<ConfirmItem>)
    ensures ValidDb(db) && FindOrCreateParticipant(db, participantName).Success? ==>
              var (db1, p) := FindOrCreateParticipant(db, participantName).value;
              ValidDb(db1.(predictions := UpsertAll(db1.predictions, p.id, Resolve(db.matches, items))))
  {
    if ValidDb(db) && FindOrCreateParticipant(db, participantName).Success? {
      var (db1, p) := FindOrCreateParticipant(db, participantName).value;
      FindOrCreateKeepsValid(db, participantName);
      var ws := Resolve(db.matches, items);
      ResolveMatches(db.matches, items);
      assert forall i :: 0 <= i < |ws| ==> HasMatch(db1, ws[i].matchId);
      UpsertAllKeepsValid(db1, p.id, ws);
    }
  }

  /**
    The effect of confirming on the store: only the participant's predictions for
    matched, fully scored items change; each holds the last such item's scores and
    keeps its old points (0 when new); every other prediction is unchanged.
  */
  lemma ConfirmEffect(db: Db, participantName: string, items: seq<ConfirmItem>)
    ensures FindOrCreateParticipant(db, participantName).Success? ==>
            var (db1, p) := FindOrCreateParticipant(db, participantName).value;
            var ws := Resolve(db.matches, items);
            var r := UpsertAll(db1.predictions, p.id, ws);
            && (forall k :: k in r <==> k in db.predictions || Written(ws, p.id, k))
            && (forall k :: k in db.predictions && k.participantId != p.id ==> r[k] == db.predictions[k])
            && (forall k :: k in db.predictions && !Written(ws, p.id, k) ==> r[k] == db.predictions[k])
            && (forall k :: k in r && Written(ws, p.id, k) ==>
                  && r[k].homeScore == LastWrite(ws, k.matchId).value.homeScore
                  && r[k].awayScore == LastWrite(ws, k.matchId).value.awayScore
                  && r[k].points == (if k in db.predictions then db.predictions[k].points else Some(0)))
  {
    if FindOrCreateParticipant(db, participantName).Success? {
      var (db1, p) := FindOrCreateParticipant(db, participantName).value;
      UpsertAllSpec(db1.predictions, p.id, Resolve(db.matches, items));
    }
  }
}
