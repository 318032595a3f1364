# World-cup predictions: scoring, ranking, OCR parsing and store transitions

A Dafny model of the core of a small prediction-competition web application.
Participants guess the scores of a fixed set of matches. An administrator
records results. The application scores every prediction, ranks the
participants on a leaderboard, and can bootstrap predictions from the text of a
photographed score sheet.

The model covers:

- **Scoring** (`Points`, `Constants`). `calculatePoints` gives 3, 1 or 0 by exact score and outcome class. `formatScore` renders a score pair.
- **Ranking** (`Ranks`, `Leaderboard`, `Preview`). This covers:
  - the `assignRanks` fold;
  - the meaning of the leaderboard SQL: sums, counts, and the `ORDER BY` modelled as a sort;
  - the selection of the "next matches" preview and each participant's padded preview row.
- **Recalculation** (`Recalculation`, `MatchAdmin`, `Staleness`). This covers `updateMatchPredictions`, `recalculateAllPoints`, and the match `PATCH` route that persists a result and re-scores when the status is `finished`.
- **Upserts** (`Upserts`). The confirm route finds or creates the participant by name, matches each item by team codes, and skips null scores. The manual route upserts every item.
- **The OCR text parser** (`Ocr`, `Text`). `parsePredictionsText` is modelled with the two regular expressions written as matchers. Each matcher is proved to return the match JavaScript's backtracking picks: the leftmost start, then greedy quantifiers.
- **Presentation helpers**:
  - the record built by `getPredictionsData` (`PredictionsMap`);
  - the grid's per-cell rules (`Grid`);
  - the country flag and name lookups over an abstract country library (`Country`);
  - the team-name strings (`TeamNames`);
  - `formatDateTime` (`DateFormat`).

The database is an immutable value (`Schema.Db`). Predictions are a map keyed
by (participant id, match id), which is the table's unique index. Matches,
teams and participants are lists. The schema's column and uniqueness
constraints are the predicate `Schema.ValidDb`: keys, unique pairs and codes,
references, and the character widths of the team, match and participant
columns. The confirm, manual and match `PATCH` routes are proved to preserve it;
recalculation changes only points, which it does not constrain. Where a query's row order matters (the leaderboard aggregates,
the grid record), the predictions table is a list of rows. `Schema.ListsTable`
ties that list to the map.

JavaScript semantics are written out where the code relies on them:

- `split`, `join` and `trim`, with JavaScript's whitespace set;
- `parseInt` on digit runs, `padStart` and `toString`;
- `||` on falsy values and `??`;
- UTF-16 code units in `charCodeAt`;
- `String.fromCodePoint`.

Three behaviours of the code are worth stating up front:

- `assignRanks` labels only an entry whose total differs from its predecessor's. A tied follower gets the empty string, not a copy of the label.
- `parsePredictionsText` recognises exactly two line shapes, a name line and a numbered score line. It reads no group or time tokens, no team names and no placeholder scores, and returns no raw text.
- `updateMatchPredictions` does not check the match status. It fails only when the match is missing or a score is null.

## Model

| member | source | states |
|---|---|---|
| Constants.PointScale | lib/constants.ts:2-4 | the point values are 3, 1 and 0, strictly ordered |
| Constants.StatusVocabulary | lib/constants.ts:13-17 | the status vocabulary is exactly "scheduled", "live" and "finished" |
| Constants.StatusPartition | lib/constants.ts:19-24 | the non-finished statuses (live, scheduled) and the finished status partition the vocabulary |
| Constants.Separators | lib/constants.ts:7-11 | scores use ":", team names use "-", and a missing result shows "-" |
| Points.CalculatePoints | lib/scoring.ts:30-63 | the result is 3, 1 or 0; 3 exactly for the exact score; 1 exactly when not exact but the predicted and actual results have the same sign of home minus away; 0 exactly when the signs differ |
| Points.CalculatePointsSwapSides | lib/scoring.ts:36-54 | swapping home and away in both pairs leaves the points unchanged |
| Points.CalculatePointsExchangePairs | lib/scoring.ts:36-54 | exchanging the predicted and actual pairs leaves the points unchanged |
| Points.CalculatePointsExamples | lib/scoring.ts:30-63 | (2,1 vs 2,1) gives 3, (2,1 vs 3,0) gives 1, (2,1 vs 1,2) gives 0, (1,1 vs 0,0) gives 1, (1,1 vs 2,1) gives 0 |
| Points.FormatScore | lib/scoring.ts:15-21 | splitting the result at ":" gives exactly the two sides; a side reads "-" exactly when the score is absent |
| Points.FormatScoreRoundTrip | lib/scoring.ts:15-21 | a rendered score reads back as the two sides it was rendered from, 0 included |
| Points.FormatScoreExamples | lib/scoring.ts:15-21 | (2,1) renders "2:1", (0,0) renders "0:0", and absent sides render "-" |
| Ranks.RankLabel | lib/scoring.ts:301-312 | rank 1 is the gold medal, 2 silver and 3 bronze, each a single non-digit symbol; a rank from 4 on is its decimal number, which parseInt reads back as the rank |
| Ranks.RankLabelInjective | lib/scoring.ts:301-312 | different ranks get different labels |
| Ranks.RankCountOfTotals | lib/scoring.ts:314-318 | the rank number reached depends only on the sequence of totals |
| Ranks.AssignRanks | lib/scoring.ts:297-324 | keeps the length and every entry; an entry is labelled exactly when it is a new rank (first, or total differs from its predecessor's); a new rank carries the label of the number of distinct totals so far |
| Ranks.AssignRanksFromSpec | lib/scoring.ts:314-323 | the fold carrying (last points, current rank) produces the labelled list, from every position on |
| Ranks.RankCountStep | lib/scoring.ts:315-316 | the rank number goes up by one when the total changes and stays on a tie |
| Ranks.FirstIsGold | lib/scoring.ts:301-318 | the first entry always gets the gold medal |
| Ranks.AssignRanksExample | lib/scoring.ts:297-324 | totals 10,10,7,5,5,2 get gold, "", silver, bronze, "", "4" |
| Leaderboard.Standings | lib/scoring.ts:150-163 | one standing per participant, with the participant's id and name, in participant order |
| Leaderboard.StandingsIgnoreRowOrder | lib/scoring.ts:150-163 | the aggregates do not depend on the order of the prediction rows |
| Leaderboard.SumByPermutation | lib/scoring.ts:155-158 | a sum over rows is the same for any permutation of the rows |
| Leaderboard.TotalFromCounts | lib/scoring.ts:155-158 | with points on the 3/1/0 scale, the total is 3 times the exact scores plus the correct outcomes, and exact plus correct never exceeds the prediction count |
| Leaderboard.UpsertAllInScale | app/api/admin/predictions/confirm/route.ts:57-86 | upserts keep every stored points value on the scale (new rows get 0, existing points are kept) |
| Leaderboard.UpdateMatchPredictionsInScale | lib/scoring.ts:84-99 | re-scoring keeps every stored points value on the scale |
| Leaderboard.InsertStanding | lib/scoring.ts:162 | inserting a standing adds exactly it to the multiset and keeps the list ordered by total, then exact scores, descending |
| Leaderboard.SortStandings | lib/scoring.ts:162 | the sorted standings are a permutation of the input, ordered by total descending, then exact scores descending |
| Leaderboard.OrderedTotalsDescend | lib/scoring.ts:162 | in leaderboard order the totals never increase |
| Leaderboard.Entries | lib/scoring.ts:256-290 | one row per standing, in order, each carrying the shown matches and the participant's preview row |
| Leaderboard.GetLeaderboard | lib/scoring.ts:131-295 | one row per participant; the rows' standings are a permutation of the aggregates, in leaderboard order; every row carries the selected matches and its participant's preview; a row is labelled exactly when its total differs from the previous row's; a labelled row carries the medal or number of its dense rank, the count of distinct totals up to and including it |
| Leaderboard.GetLeaderboardPreview | lib/scoring.ts:256-268 | over a listing of the store, preview slot j of every row holds the participant's stored scores for the j-th shown match, or a null pair |
| Preview.SelectPreview | lib/scoring.ts:203-214 | every shown match is a candidate; with a live candidate exactly the live ones are shown; otherwise exactly the scheduled ones dated like the first candidate; no candidates gives none |
| Preview.SelectPreviewIsSubsequence | lib/scoring.ts:203-214 | the selection keeps the candidates' order |
| Preview.SelectPreviewNonEmpty | lib/scoring.ts:169-214 | non-empty candidates that are all live or scheduled always select at least one match, and without a live one the first candidate is shown first |
| Preview.MatchIds | lib/scoring.ts:216 | the ids of the shown matches, one per match, in order |
| Preview.GroupByParticipantSpec | lib/scoring.ts:238-253 | the grouping has a list exactly for participants with a row, holding that participant's entries in row order |
| Preview.FindEntryOfEntries | lib/scoring.ts:259-260 | finding a match in a participant's group gives the entry of their first row for that match |
| Preview.FirstRowOfNextPredictions | lib/scoring.ts:233-236 | restricting the rows to the shown matches does not change the first row found for a shown match |
| Preview.PadPredictions | lib/scoring.ts:259-268 | one slot per shown match, in order, each with that match's id and both scores present or both null |
| Preview.PreviewRowSpec | lib/scoring.ts:256-268 | slot i holds the scores of the participant's first row for the i-th shown match, or a null pair |
| Preview.PreviewRowFromStore | lib/scoring.ts:256-268 | over a listing of the store, slot i holds the stored prediction for (participant, i-th match), or a null pair |
| Recalculation.FindMatch | lib/scoring.ts:70-72 | finds a match exactly when one has the id, and then the first such match in list order |
| Recalculation.FindMatchUnique | lib/schema.ts:44 | with unique match ids, looking a listed match up by its id finds it |
| Recalculation.Rescore | lib/scoring.ts:84-99 | every prediction of the match gets its points from calculatePoints against the result; all other predictions and all keys are unchanged |
| Recalculation.UpdateMatchPredictions | lib/scoring.ts:68-102 | fails exactly when the match is missing or a score is null, whatever the status; otherwise only points change, every prediction of the match agrees with the result, the others are unchanged, and the count of the match's predictions is returned |
| Recalculation.UpdateMatchPredictionsIdempotent | lib/scoring.ts:68-102 | re-scoring a match twice gives the same store and count as once |
| Recalculation.FinishedMatches | lib/scoring.ts:109-111 | exactly the listed matches whose status is "finished" |
| Recalculation.RecalculateAllPoints | lib/scoring.ts:108-126 | on success, matchesProcessed is the number of finished matches, including those skipped for a null score |
| Recalculation.RecalculateOverSpec | lib/scoring.ts:113-120 | the loop fails exactly when a finished match with a result cannot be found again; otherwise only points change, each re-scored prediction agrees with its match, others are unchanged, and the total is the sum of the re-scored matches' counts |
| Recalculation.RecalculateAllSucceeds | lib/scoring.ts:108-126 | with unique match ids the recalculation always succeeds |
| Recalculation.RecalculateAllPointsSpec | lib/scoring.ts:108-126 | afterwards every prediction of a finished match with a result holds calculatePoints against it; predictionsUpdated is the sum of the re-scored counts; a prediction of a re-scored match differs from before only in its points, and every other prediction is unchanged |
| Recalculation.RecalculateAllPointsIdempotent | lib/scoring.ts:108-126 | running the recalculation on its own result succeeds and changes nothing |
| MatchAdmin.SetResult | app/api/admin/matches/route.ts:18-25 | the addressed match gets the request's scores and status; every other match, and every id and match number, is unchanged |
| MatchAdmin.FindPatched | app/api/admin/matches/route.ts:18-30 | after the update, the addressed match is found exactly when it existed, and it carries the request's values |
| MatchAdmin.PatchMatch | app/api/admin/matches/route.ts:18-30 | the match update always persists; a status other than "finished" leaves all predictions and points as they were; "finished" succeeds exactly when the match exists and both scores are set, and then every prediction of the match holds calculatePoints against the new result; a failure keeps the updated matches and leaves predictions unchanged |
| MatchAdmin.SetResultKeepsEntities | app/api/admin/matches/route.ts:18-25 | the match update keeps the team references, ids, numbers and stage widths of the matches valid |
| MatchAdmin.PatchMatchKeepsValid | app/api/admin/matches/route.ts:18-30 | the PATCH keeps every schema constraint |
| Staleness.UpsertStaleness | app/api/admin/predictions/manual/route.ts:25-33 | overwriting the scores of a finished match's prediction keeps its stored points, so the points stay consistent only when they already equal calculatePoints of the new scores; recalculation makes them consistent again |
| Upserts.Upsert | app/api/admin/predictions/confirm/route.ts:57-86 | the key is present afterwards; an existing prediction gets the new scores and keeps its points; a new one gets points 0; every other prediction is unchanged |
| Upserts.UpsertAllSnoc | app/api/admin/predictions/manual/route.ts:16-42 | upserting one more write after a list is one more upsert |
| Upserts.LastIndex | app/api/admin/predictions/manual/route.ts:16-42 | the position of the last write for a match, or none when no write names it |
| Upserts.UpsertAllSpec | app/api/admin/predictions/manual/route.ts:16-42 | after a list of upserts, the keys are the old ones plus the participant's written matches; each written entry holds the last write's scores and its old points (0 when new); every other entry is unchanged |
| Upserts.UpsertAllKeepsValid | lib/schema.ts:73-92 | upserts none of whose inserts names a missing participant or match keep every modelled schema constraint, including the unique (participant, match) pair |
| Upserts.FirstRejected | lib/schema.ts:77-82 | the first write whose insert names a missing participant or match; every earlier one is accepted, and none found means every write is |
| Upserts.Applied | app/api/admin/predictions/manual/route.ts:16-42 | the writes the route gets through are a prefix: all of them, or exactly those before the first rejected insert |
| Upserts.UpsertedKeyAccepted | app/api/admin/predictions/manual/route.ts:17-33 | a pair the earlier accepted writes left stored is updated without a reference check failing; a pair not stored was not stored before either |
| Upserts.ManualWrites | app/api/admin/predictions/manual/route.ts:16-42 | the loop, deciding update or insert on the current store and stopping at the first insert that breaks a reference, stops at the first rejected write and leaves the upsert of the writes before it |
| Upserts.ManualPredictions | app/api/admin/predictions/manual/route.ts:16-44 | the request fails exactly when some insert names a missing participant or match, keeping the writes before it; the applied items are upserted for the participant without filtering; other participants' predictions are unchanged; a later item for the same match wins; points are kept or 0; a valid store stays valid |
| Upserts.FindParticipantByName | app/api/admin/predictions/confirm/route.ts:19-21 | finds a participant exactly when one has the name, and the one found has it |
| Upserts.FindOrCreateParticipant | app/api/admin/predictions/confirm/route.ts:19-28 | an existing participant with the name is used and nothing changes; otherwise one with the next serial id, no email and the name as varchar(100) stores it is appended; the insert fails exactly when the column rejects the name |
| Upserts.FindOrCreateKeepsValid | lib/schema.ts:66-71 | a successful find or create keeps every modelled schema constraint, the name's 100-character width included |
| Schema.VarcharValue | lib/schema.ts:68 | a string that fits is stored as is; a longer one is cut to the width when only spaces are cut, and rejected otherwise |
| Upserts.FirstWithCodes | app/api/admin/predictions/confirm/route.ts:42-45 | a position found holds a match with both team codes |
| Upserts.FirstWithCodesIsFirst | app/api/admin/predictions/confirm/route.ts:42-45 | no earlier match has both codes, and none found means no match has them |
| Upserts.FindMatchByCodes | app/api/admin/predictions/confirm/route.ts:42-45 | a match found is a listed match with the item's home and away codes |
| Upserts.Target | app/api/admin/predictions/confirm/route.ts:42-55 | an item is skipped exactly when no match has its codes or a score is null; otherwise it writes its scores to the first matching match |
| Upserts.ResolveMatches | app/api/admin/predictions/confirm/route.ts:42-50 | every resolved write names a listed match |
| Upserts.ResolveSnoc | app/api/admin/predictions/confirm/route.ts:40-87 | a skipped item adds no write; a kept item adds exactly its own |
| Upserts.ResolveItems | app/api/admin/predictions/confirm/route.ts:40-55 | the loop computes the writes of the kept items, in item order |
| Upserts.UpsertWrites | app/api/admin/predictions/confirm/route.ts:57-86 | the update-or-insert loop computes the list upsert |
| Upserts.ConfirmPredictions | app/api/admin/predictions/confirm/route.ts:15-101 | the request fails exactly when the participant cannot be created, and then nothing is stored; otherwise the result names the found or created participant, the store is the upsert of the kept items' writes, and predictionsInserted counts the kept items, updates and inserts alike; matches and teams are unchanged |
| Upserts.ConfirmKeepsValid | app/api/admin/predictions/confirm/route.ts:19-87 | a successful confirm keeps every modelled schema constraint |
| Upserts.ConfirmEffect | app/api/admin/predictions/confirm/route.ts:40-87 | only the participant's predictions for kept items' matches change; each holds the last such item's scores and keeps its old points (0 when new); other participants' and untouched predictions are unchanged |
| Schema.InsertPrediction | lib/schema.ts:83-85 | an insert adds exactly the new key with its scores and default points 0, and keeps every other entry |
| Schema.WithPredictionsValid | lib/schema.ts:77-82 | a predictions map whose keys reference existing participants and matches makes a valid store |
| Schema.UniquePairsCard | lib/schema.ts:90 | rows with unique (participant, match) pairs have as many keys as rows |
| Schema.ListsTableSize | lib/schema.ts:90 | a listing of the store has one row per stored prediction |
| Ocr.MatchName | lib/ocr.ts:62 | a match found is a decomposition of the line by the name pattern |
| Ocr.MatchNameSpec | lib/ocr.ts:62 | no match exactly when the pattern has no decomposition; otherwise the one found is the first JavaScript tries (leftmost keyword, colon taken before skipped, more spaces, longer capture) |
| Ocr.MatchNameFromSpec | lib/ocr.ts:62 | the search from a position finds the first decomposition starting there or later |
| Ocr.MatchCaptureSpec | lib/ocr.ts:62 | `\s*(.+)` takes as many spaces as still leave a capture, then the longest capture |
| Ocr.MatchPred | lib/ocr.ts:70 | a match found is a decomposition of the line by the prediction pattern |
| Ocr.MatchPredSpec | lib/ocr.ts:70 | no match exactly when the pattern has no decomposition; otherwise the one found is the first JavaScript tries (leftmost start, then greedy runs) |
| Ocr.MatchPredFromSpec | lib/ocr.ts:70 | the search from a position finds the first decomposition starting there or later |
| Ocr.MatchPredAtSpec | lib/ocr.ts:70 | at one start the greedy runs give the decomposition tried first |
| Ocr.MatchPredAtFinds | lib/ocr.ts:70 | whenever a decomposition starts at a position, the greedy matcher succeeds there with the same first three runs |
| Ocr.ClassifyLine | lib/ocr.ts:61-77 | a line is a name line exactly when the name pattern matches, and a prediction line exactly when only the prediction pattern does |
| Ocr.NonBlankLines | lib/ocr.ts:51 | a line of the text is kept exactly when it has a non-whitespace character |
| Ocr.NonBlankLinesInOrder | lib/ocr.ts:51 | the kept lines stay in text order |
| Ocr.NonBlankLinesCount | lib/ocr.ts:51 | a non-blank line is kept as many times as the text has it, and a blank one never |
| Ocr.Step | lib/ocr.ts:60-78 | one line adds its own prediction, if any, to the list |
| Ocr.ParsePredictionsText | lib/ocr.ts:50-81 | total on every text; there are never more predictions than non-blank lines |
| Ocr.ParseLinesPredictions | lib/ocr.ts:60-78 | the predictions are those of the prediction lines, one per line, in line order |
| Ocr.ParseLinesName | lib/ocr.ts:53-66 | the name is "Unknown" without a name line, and otherwise the trimmed capture of the last name line |
| Ocr.NoKeyword | lib/ocr.ts:62 | a line without "n" or "N" is never a name line |
| Ocr.SingleDigitLine | lib/ocr.ts:68-77 | a digit, any run of '.', ')', ':' or whitespace, a digit, ':' or '-', and a digit give that prediction |
| Ocr.PredictionLineExamples | lib/ocr.ts:68-77 | "1. 2:1", "1) 2-1", "1: 2:1" and "1 2:1" each give match 1, 2:1 |
| Ocr.ShortLineNoPrediction | lib/ocr.ts:70 | a line shorter than five characters never matches the prediction pattern |
| Ocr.BareScoreExample | lib/ocr.ts:68-77 | "2:1" alone yields nothing |
| Ocr.NameLineExamples | lib/ocr.ts:61-66 | "Name: John Doe" and "Name John Doe" give "John Doe"; a bare "Name:" gives ":" because the optional colon gives its character back |
| PredictionsMap.GridKeyRoundTrip | lib/predictions.ts:21 | the key of two non-negative ids reads back as those ids |
| PredictionsMap.GridKeyInjective | lib/predictions.ts:21 | distinct pairs of non-negative ids get distinct keys |
| PredictionsMap.BuildPredictionsMap | lib/predictions.ts:20-29 | the record's keys are exactly the rows' keys |
| PredictionsMap.BuildPredictionsMapLastWins | lib/predictions.ts:20-29 | under a key, the record holds the last row with that key |
| PredictionsMap.BuildPredictionsMapOfTable | lib/predictions.ts:20-29 | with unique pairs and non-negative ids the record has one entry per row, each row under its own key |
| PredictionsMap.BuildPredictionsMapLookup | lib/predictions.ts:20-29 | over a listing of the store, a pair's key is present exactly when the store holds that prediction, and then it holds the stored ids, scores and points with null as 0 |
| Grid.GroupCell | components/predictions-grid.tsx:60 | a group-stage match shows the home team's group (nothing when null); any other shows its stage |
| Grid.GroupCellWidth | lib/schema.ts:33 | in a valid store a group-stage cell is at most one character |
| Grid.ResultCell | components/predictions-grid.tsx:92-107 | shows "-" exactly when a match score is null, and otherwise a score that reads back as the match's result |
| Grid.PointsText | components/predictions-grid.tsx:132-142 | finished shows the stored points; live shows calculatePoints against the current scores with null as 0; any other status shows "-" |
| Grid.Cell | components/predictions-grid.tsx:113-143 | "-" exactly when no prediction is under the key; otherwise the predicted score, " \| " and the points figure |
| Grid.CellOfStore | components/predictions-grid.tsx:113-143 | over the record of a listed store, "-" exactly when the store has no such prediction, else its scores and points with null as 0 |
| Grid.FinishedCellAgreesWithLive | components/predictions-grid.tsx:132-141 | once recalculated, a finished match's cell shows the figure the live rule computes |
| Country.GetCountryName | lib/country-utils.ts:8-21 | the library's name under the alpha-2 code (of a known alpha-3 code, else the input) in the locale; the input itself when the name is missing or empty |
| Country.GetCountryNameNonBlank | lib/country-utils.ts:16-20 | a non-empty code never gets an empty name |
| Country.GetCountryFlag | lib/country-utils.ts:23-33 | the flag of the alpha-2 code of a known alpha-3 code, else of the input |
| Country.FlagOfUnits | lib/country-utils.ts:27-32 | one code point per code unit, each the unit plus 127397 |
| Country.FlagRoundTrip | lib/country-utils.ts:27-32 | for a code in the Basic Multilingual Plane the flag has one code point per character, and reads back as the upper-cased code |
| Country.FlagOfLetter | lib/country-utils.ts:27-30 | letters of either case map to U+1F1E6 to U+1F1FF in alphabet order |
| Country.FlagIgnoresCase | lib/country-utils.ts:24-28 | without an alpha-3 mapping, the flag does not depend on letter case |
| Country.Utf16UnitsOfBmp | lib/country-utils.ts:28-30 | a string in the Basic Multilingual Plane is its own UTF-16 code units |
| TeamNames.TeamChunks | lib/teams.ts:13-21 | 3 chunks, or 5 with flags; separator in the middle, labels beside it, flags outside |
| TeamNames.TeamNamesLayout | lib/teams.ts:4-42 | short form is home + " - " + away, with the flags and a space outside when asked; the long form is the same with the country names |
| TeamNames.NamesCoincideWithCodes | lib/teams.ts:24-42 | when the names are the codes the long and short forms coincide |
| TeamNames.FlagHasNoSpace | lib/country-utils.ts:27-32 | a flag never contains a space |
| TeamNames.ShortNamesSplit | lib/teams.ts:13-21 | splitting a short form with space-free codes at spaces gives back its chunks |
| DateFormat.Pad2Digits | lib/date.ts:23-27 | a value below 100 renders as two digits reading back as it, a "0" in front of a single digit |
| DateFormat.FormatDateTimeRoundTrip | lib/date.ts:22-30 | in-range parts render as 11 characters with '.', ' ' and ':' at 2, 5 and 8, and read back as the parts |
| DateFormat.JanuaryRendersAsOne | lib/date.ts:24 | month 0 renders as "01" |
| Text.Trim | lib/ocr.ts:64 | trim removes exactly the leading and trailing whitespace |
| Text.TrimEmptyIff | lib/ocr.ts:51 | a line trims to empty exactly when it has no non-whitespace character |
| Text.PadStart2 | lib/date.ts:23-27 | strings of two or more characters are unchanged; shorter ones are padded to two with leading "0" |
| Sequences.FilterIsSubsequence | lib/scoring.ts:203 | a filter keeps the order of the list |
| Sequences.FilterMultiset | lib/ocr.ts:51 | a filter keeps every occurrence of an element that passes and none of one that fails |

## Left out

- Network, storage and authentication: the image-to-text call, the upload route, the database client, sessions, `revalidatePath` and `updatedAt` timestamps. The routes are modelled from the parsed request on.
- The competition-filtered leaderboard query and the `competitionId` filter on candidates: only the unfiltered path is modelled.
- The candidate query's ordering and `limit 10` (lib/scoring.ts:169-185): the candidates are an input, already ordered.
- `getParticipantPredictions`, `getLastCompletedMatchDate` and `getFinishedMatchesByMatchDate`: plain queries outside the scoring core.
- Leaderboard.SortStandings: ties on both total and exact scores come back in some order consistent with the ordering, because the SQL leaves that order to the database.
- Leaderboard.GetLeaderboard: the `email` column and the team fields copied into `nextMatches` are not carried; the two early returns give the same rows as the general path with an empty selection.
- Upserts.FindParticipantByName: the first participant with the name in list order stands for the database's `findFirst`, whose order is unspecified.
- Upserts.FindMatchByCodes: the first match with the codes in list order stands for `allMatches.find` over a `findMany` without `orderBy`, whose order is unspecified; when the same teams meet twice (a group game and a knockout rematch) the source may pick either.
- Upserts.ConfirmPredictions: the only database failure modelled is the participant insert the name's width rejects; other failures part-way through the loop, and concurrent requests, are not modelled.
- Upserts.ManualPredictions: the only database failure modelled is an insert naming a missing participant or match; a `participantId` or score that is not an integer in the request body is not modelled.
- Schema.ValidDb: the 32-bit range of the `integer` columns (scores, points, ids) is not part of the predicate, and no write is rejected for an out-of-range integer; the competitions table and the teams' and matches' competition references are not modelled.
- Recalculation.RecalculateAllPoints: each `updateMatchPredictions` is one atomic step. A failure part-way through leaves the earlier matches re-scored in the source; the model returns only the failure.
- Ocr.ParsePredictionsText: `parseInt` is exact on digit runs of any length, while JavaScript loses precision beyond 2^53.
- Country.GetCountryFlag: `toUpperCase` is modelled on ASCII letters only; other characters keep their case.
- Country.GetCountryName: the library's tables are abstract lookups, and an empty library string counts as missing.
- DateFormat.FormatDateTime: the date's getters become integer inputs (day, zero-based month, hours, minutes); time zones and `getShortWeekday` are not modelled.
- PredictionsMap.GridKeyInjective: proved for non-negative ids only (serial ids); a negative id's key contains a second "-".
- The React components other than the grid's cell rules, and the leaderboard table, which shows medals by row position rather than by rank.
