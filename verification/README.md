# ace-trace scoring core in Dafny

This project models the scoring core of ace-trace, a tennis scoring app.

**Match state and its engines**
- The match data model (sides, point labels, the rules configuration, tallies, history events and the match state, as datatypes in `MatchTypes`), the fresh match state and the default rules.
- The score engine `addPoint`. One call resolves one point through four stages, and every effective call appends exactly one history event:
  - the 0/15/30/40/Ad ladder, or a numeric tie-break;
  - completion of the game;
  - completion of the set against `tieBreakAt`;
  - completion of the match.
- The undo engine `undoPoint`.
- The session controller: pause, resume and elapsed-time ticking.
- The rebuilding of a match state from a live summary and an optional realtime fragment.

**Pure helpers of the live-sync gateway**
- The one-line score summary.
- Club topic sanitising.
- The normalisation of summary and realtime documents written under either client schema (camelCase or snake_case).
- The ownership decision that guards overwriting and deleting a match.
- The two documents a sync writes.

**Small shared helpers**
- Player colour key normalisation and the theme lookup.
- The authentication error messages.
- The recently visited clubs list.

**How the model is built**
- Every operation is a pure function on immutable datatypes.
- The wall clock (`now`) and the event id are explicit parameters.
- Storage reads become input values, and the success of a storage write is a boolean parameter.
- JavaScript's `??` chains are written as `Precedence.Pick`/`Coalesce`.
- `trim` and `toLowerCase` are modelled in `Text`.
- `${n}` of a non-negative integer is `Text.NatToString`.

**Ghost invariants**
- `MatchInvariants.WellFormed`:
  - one set slot per set played (`|sets| == currentSetIndex + 1`);
  - ladder labels outside a tie-break and numeric labels inside one;
  - "Ad" only against "40";
  - a winner exactly when the match is over.
- `MatchInvariants.Consistent` adds that the history agrees with the state. A state without history may hold any well-formed score, as a match rebuilt from its summary alone does.

**Proved properties**
- The score engine and the undo engine preserve both invariants.
- Any sequence of controller commands keeps a created match consistent (`MatchController.Replay`).
- Undoing a point after earlier events gives the state back, except the server. Undoing the first recorded point resets the match to a fresh one, which drops the match id and any score the state held before that point.
- The score line reads back unambiguously.
- Resuming from the two documents a sync writes gives the synced state back. Firestore merges those documents into what is already stored, so this holds for the documents as written.

**Tie-break quirk kept as written.** A match won in a tie-break keeps `isTieBreak` set while its points reset to the ladder "0"/"0". `addPoint.ts:229-247` does not clear the flag. So the well-formedness predicate asks for numeric tie-break labels only while the match is still running.

## Model

| member | source | states |
|---|---|---|
| DefaultConfig.DefaultDecidesInASuperTieBreak | src/shared/defaultConfig.ts:3-14 | Under the default rules the third set (index 2) is the only deciding set and its tie-break is played to 10. Every other set's tie-break is played to 7. Without advantage, the point at 40-40 wins the game. |
| Initialize.InitializeMatch | src/domain/match/use-cases/initializeMatch.ts:19-40 | The config is kept as given and the start time is `now`. Duration is 0, the match is neither paused nor over, there is one 0-0 set at index 0, games are 0-0 and points "0"/"0". There is no tie-break, no pending switch, P1 serves, and there is no history, winner or match id. |
| Scoring.NextPointLabel | src/domain/match/use-cases/addPoint.ts:8-20 | A ladder label below 40 moves exactly one rung up. "40", "Ad" and numbers are returned unchanged. |
| Scoring.OtherPlayer | src/domain/match/use-cases/addPoint.ts:22-23 | The other side is different from the given one, and the other of it is the given one. |
| Scoring.CountSetWins | src/domain/match/use-cases/addPoint.ts:41-47 | A side's set count is at most the number of sets, and equals it only when the side won every set. |
| Scoring.CountSetWinsIsWonSets | src/domain/match/use-cases/addPoint.ts:41-47 | The set count is the number of positions whose set the side won, that is, where it has strictly more games than the other side. |
| Scoring.TieBreakTarget | src/domain/match/use-cases/addPoint.ts:122-125 | A tie-break goes to 10 points in the set at index 2*setsToWin-2 when the final set is a super tie-break. In every other set, and whenever the final set is not a super tie-break, it goes to `tieBreakPoints`. |
| Scoring.SideSwitchRule | src/domain/match/use-cases/addPoint.ts:77-112 | In a tie-break the ends switch after a point iff both labels are numbers whose total is a positive multiple of 6. They never switch after a plain point outside a tie-break. After GAME_WIN they switch iff the game total of the current set is odd. After SET_WIN in a running match they switch iff the just-finished set has an odd game total, and never after a SET_WIN recorded on a finished match. After MATCH_WIN they switch iff the final set's game total is odd. |
| Scoring.ResolveTieBreakPoint | src/domain/match/use-cases/addPoint.ts:114-128 | The winner's number goes up by one and the loser's label is kept. The game is won iff the new number reaches the target with a two-point margin. A loser holding "Ad" (NaN) never lets the game be won. |
| Scoring.ResolveStandardPoint | src/domain/match/use-cases/addPoint.ts:130-155 | The game is won iff the winner held "Ad", or held "40" while the loser held neither "Ad" nor (with advantage scoring) "40". Below 40 the winner climbs one rung. From 40 against "Ad" the loser drops back to "40". At 40-40 with advantage the winner takes "Ad". |
| Scoring.MaybeFinishSet | src/domain/match/use-cases/addPoint.ts:157-192 | A won tie-break game always ends the set. Otherwise the set ends at tieBreakAt+1 or more with a two-game margin, or at tieBreakAt against tieBreakAt-2 or fewer. A tie-break starts exactly at tieBreakAt-all. |
| Scoring.RecordEvent | src/domain/match/use-cases/addPoint.ts:56-75 | Exactly one event is appended to the history. It carries the id, time, kind, winner, the side-switch decision and a snapshot of the score it is given. Nothing but the history and the switch flag changes. |
| Scoring.PointEvent | src/domain/match/use-cases/addPoint.ts:206-211 | A point that does not end the game changes only the point labels and appends a POINT event carrying the new score. The server, configuration, clock and pause flag stay as they were. |
| Scoring.GameWinEvent | src/domain/match/use-cases/addPoint.ts:213-227 | A won game that does not end the set stores the new games and resets the points to "0"/"0", or to numeric 0-0 when a tie-break starts. It hands over the serve and appends a GAME_WIN event. |
| Scoring.MatchWinEvent | src/domain/match/use-cases/addPoint.ts:229-247 | The finishing set is written to the sets, the match is over with the given winner, the server is unchanged and a MATCH_WIN event is appended. |
| Scoring.SetWinEvent | src/domain/match/use-cases/addPoint.ts:249-277 | The set index goes up by one and a 0-0 set is appended. Games reset, the serve changes hands, and a numeric 0-0 tie-break starts exactly when the new set is the deciding set under a super tie-break. A SET_WIN event is appended. |
| Scoring.AddPoint | src/domain/match/use-cases/addPoint.ts:194-278 | A paused or finished match is returned unchanged. Otherwise the history grows by exactly one event, whose snapshot is the new score and whose side-switch flag is the new `shouldSwitchSides`. The match is over exactly after MATCH_WIN. The server changes exactly on GAME_WIN and SET_WIN. The winner changes only on MATCH_WIN. Configuration, id, clock and pause flag are kept. |
| AddPointLaws.EventKindOfPoint | src/domain/match/use-cases/addPoint.ts:202-247 | The event kind is decided by how far the point reaches. It is POINT iff the game is not won, GAME_WIN iff the game but not the set is won, SET_WIN iff the set but not the match ends, and MATCH_WIN iff a side reaches `setsToWin` sets. |
| AddPointLaws.PointEventEffects | src/domain/match/use-cases/addPoint.ts:77-88 | After a plain point only the labels change and the set index and server are kept. Outside a tie-break the ends never switch. In a tie-break with numeric labels they switch iff the point total is a positive multiple of 6. |
| AddPointLaws.GameWinEffects | src/domain/match/use-cases/addPoint.ts:213-227 | A won game that does not end the set adds one game to the winner and keeps the sets. It hands over the serve and starts a numeric 0-0 tie-break iff the games are tieBreakAt-all (else the points are "0"/"0"). The ends switch iff the game total is odd. |
| AddPointLaws.SetWinEffects | src/domain/match/use-cases/addPoint.ts:249-277 | A set win writes the finished set to its slot and appends a 0-0 set. It resets the games and hands over the serve. It starts a tie-break iff the new set is number 2*setsToWin-1 under a super tie-break. The ends switch iff the finished set's game total is odd. |
| AddPointLaws.MatchWinEffects | src/domain/match/use-cases/addPoint.ts:229-247 | A match win writes the final set to its slot and keeps the set index and the server. The winner is P1 iff P1 won strictly more sets. The ends switch iff the final set's game total is odd. |
| MatchInvariants.WellFormedIsScorable | src/domain/match/use-cases/addPoint.ts:114-128 | In a well-formed state any side can win the next point: the set slot exists and no tie-break winner holds "Ad". |
| MatchInvariants.DeciderIsLastReachableSet | src/domain/match/use-cases/addPoint.ts:49-54 | While play goes on and every completed set has a winner, the current set index is at most 2*setsToWin-2. The current set is the deciding set iff both sides stand at setsToWin-1 sets. |
| MatchInvariants.FinishedSetWonByPointWinner | src/domain/match/use-cases/addPoint.ts:157-178 | When a won game ends the set in a running match, the set goes to the side that won that game. |
| MatchInvariants.AddPointPreservesWellFormed | src/domain/match/use-cases/addPoint.ts:194-278 | The score engine maps a well-formed state to a well-formed state. That means one slot per set, labels of the right kind, "Ad" only against "40", a winner exactly when over, and no side at `setsToWin` while play goes on. |
| MatchInvariants.MatchWinnerWonTheLastPoint | src/domain/match/use-cases/addPoint.ts:234-247 | In a well-formed running match, the side named winner when the match ends is the side that won the last point. |
| MatchInvariants.AddPointPreservesConsistent | src/domain/match/use-cases/addPoint.ts:56-75 | Scoring keeps the history consistent with the state. The last snapshot is the current score, only the last event may be MATCH_WIN, and the match is over exactly after one. |
| MatchInvariants.UndoPreservesConsistent | src/domain/match/use-cases/undoPoint.ts:4-36 | Undoing keeps a consistent state consistent. |
| MatchInvariants.InitializeIsConsistent | src/domain/match/use-cases/initializeMatch.ts:19-40 | A fresh match is consistent. |
| MatchInvariants.UndoRestoresScore | src/domain/match/use-cases/undoPoint.ts:20-28 | The undo round trip restores the sets, games, points and tie-break flag of a running state whose score agrees with its last snapshot (or is the initial score when there is no history). |
| MatchInvariants.UndoAfterAddPoint | src/domain/match/use-cases/undoPoint.ts:4-36 | On a consistent running state with history, undoing the point just scored gives the state back exactly, except that the server is not restored. With no history, it gives a fresh match for the same config that keeps the start time and duration. That equals the state with P1 serving and no match id iff the state held the initial score and no pending switch. |
| MatchInvariants.RebuiltMatchFirstUndoStartsAfresh | src/domain/match/use-cases/undoPoint.ts:11-18 | Take a live, unpaused match rebuilt from a summary alone, whose current set is untouched and where no side has reached setsToWin. It is consistent. Scoring a point in it and undoing that point gives a fresh match, which loses the rebuilt sets and games and the match id. |
| Undo.UndoPoint | src/domain/match/use-cases/undoPoint.ts:4-36 | With no history the state is unchanged. Removing the only event gives a fresh match for the same config that keeps the start time and duration and drops the match id. Otherwise the history loses its last event and the score comes from the new last snapshot, with the index at max(0, sets-1). The match is no longer over, the winner is cleared and the switch flag is the snapshot's (absent reads false). Config, server, clock, pause flag and match id are kept. |
| MatchController.Create | src/application/match/MatchController.ts:19-21 | Creating a match is initialising one. The result is consistent. |
| MatchController.ScorePoint | src/application/match/MatchController.ts:23-25 | Scoring is the score engine. It keeps a consistent state consistent and adds one event unless the match is paused or over. |
| MatchController.UndoLast | src/application/match/MatchController.ts:27-29 | Undo is the undo engine. It keeps a consistent state consistent and removes one event when there is one. |
| MatchController.TogglePause | src/application/match/MatchController.ts:31-49 | A finished match is unchanged. Pausing only sets the flag. Resuming only clears it and moves the start time so that `now - startTime` is the elapsed duration in milliseconds. |
| MatchController.Tick | src/application/match/MatchController.ts:51-63 | A paused or finished match is unchanged. Otherwise only the duration changes: it becomes the number of whole seconds since the start, floored and never negative. |
| MatchController.ResumeKeepsElapsedTime | src/application/match/MatchController.ts:37-61 | Ticking at the instant of resuming leaves the elapsed time where the pause left it, so time is continuous across pauses. |
| MatchController.TickIsMonotonic | src/application/match/MatchController.ts:51-63 | A later tick never shows less elapsed time than an earlier one. |
| MatchController.Apply | src/application/match/MatchController.ts:10-16 | Any one controller request keeps a consistent state consistent. |
| MatchController.Replay | src/application/match/MatchController.ts:18-64 | Any sequence of controller requests keeps a consistent state consistent and well-formed, with one set slot per set played. |
| LiveSync.SummarySets | src/application/live-sync/reconstructMatchState.ts:18-20 | The sets are the summary's when it has a non-empty list, else a single 0-0 set. |
| LiveSync.ResolveConfig | src/application/live-sync/reconstructMatchState.ts:22-31 | Each name and colour is chosen independently: the summary's, else the embedded config's, else the fallback's. Every rule field and partner name is the embedded config's when present, else the fallback's. |
| LiveSync.ReconstructMatchState | src/application/live-sync/reconstructMatchState.ts:13-50 | The id and server come from the summary and the config is the resolved one. There is one slot per set with the index at the last set. Games, start time, duration and pause flag come from the summary with defaults 0-0, `now`, 0 and false. The match is over iff the status is FINISHED. There is no winner and no pending switch. Points, tie-break flag and history come from the fragment, or are "0"/"0", false and empty without one. |
| Precedence.FirstPresent | src/infrastructure/firebase/firebaseLiveMatchGateway.ts:54-59 | The result is absent iff every candidate is, and otherwise is the first present candidate. |
| Text.Trim | src/infrastructure/firebase/firebaseLiveMatchGateway.ts:67 | The result is a slice of the input with only white space cut from both ends, and it neither starts nor ends with white space. It is empty iff the input is all white space. |
| Text.TrimLowerIsIdempotent | src/infrastructure/firebase/firebaseLiveMatchGateway.ts:28 | Trimming and lower-casing a string already normalised that way changes nothing. |
| Text.NatToString | src/infrastructure/firebase/firebaseLiveMatchGateway.ts:21 | A number is rendered as a non-empty string of decimal digits without a leading zero. |
| Text.ReadNatAfterNatToString | src/infrastructure/firebase/firebaseLiveMatchGateway.ts:24 | Reading a rendered number followed by a non-digit gives back the number and the rest. |
| FirebaseGateway.JoinScores | src/infrastructure/firebase/firebaseLiveMatchGateway.ts:19-22 | Joining scores gives the empty string exactly for no scores. |
| FirebaseGateway.CompletedSets | src/infrastructure/firebase/firebaseLiveMatchGateway.ts:19-20 | The completed sets are the prefix of the sets before the current index, or all of them when the index is past the end. |
| FirebaseGateway.ToScoreSummary | src/infrastructure/firebase/firebaseLiveMatchGateway.ts:18-26 | The score line is the completed sets and then the current games, each "a-b", joined by ", ". At set index 0 it is just the current games. The current set's slot is not part of it. |
| FirebaseGateway.ParseJoinScores | src/infrastructure/firebase/firebaseLiveMatchGateway.ts:19-25 | A non-empty list of scores joined by ", " reads back as the same list. |
| FirebaseGateway.ScoreSummaryRoundTrip | src/infrastructure/firebase/firebaseLiveMatchGateway.ts:18-26 | The score line is unambiguous: reading it back gives the completed sets followed by the current games. |
| FirebaseGateway.SanitizeTopic | src/infrastructure/firebase/firebaseLiveMatchGateway.ts:28 | A sanitised topic is no longer than the topic and has no capitals and no surrounding white space. It is empty iff the topic is blank. |
| FirebaseGateway.SanitizeTopicIsIdempotent | src/infrastructure/firebase/firebaseLiveMatchGateway.ts:28 | Sanitising twice is sanitising once. |
| FirebaseGateway.KeepColour | src/infrastructure/firebase/firebaseLiveMatchGateway.ts:66-73 | A stored colour is kept, unchanged, iff it is a string that is not blank once trimmed. |
| FirebaseGateway.NormalizeColour | src/infrastructure/firebase/firebaseLiveMatchGateway.ts:54-73 | The colour is the first present of camelCase, snake_case, `playerN_color`, config camelCase and config snake_case. It is kept only when it is a non-blank string, is absent otherwise, and is absent when every source is absent. |
| FirebaseGateway.NormalizeSummary | src/infrastructure/firebase/firebaseLiveMatchGateway.ts:49-103 | Every field comes from its camelCase key, else its snake_case key, else its default. The defaults are: id → docId, names → "Player 1"/"Player 2", summary → "0-0", games → 0-0, sets → none, server → P1, owner → "", singles, duration → 0, start → `now`, not paused. Colours are as NormalizeColour says. Status is finished iff the stored status is the string "FINISHED". The config is kept. The result has every required field. |
| FirebaseGateway.NormalizeRealtime | src/infrastructure/firebase/firebaseLiveMatchGateway.ts:105-115 | Points and tie-break flag come from camelCase, else snake_case, else "0"/"0" and false. The history is the stored one or empty. |
| FirebaseGateway.OwnerOf | src/infrastructure/firebase/firebaseLiveMatchGateway.ts:126-131 | The owner is `creatorUid` when present, else `creator_uid`, else "". It is empty iff the field that wins is empty or both are absent. |
| FirebaseGateway.CheckOwnership | src/infrastructure/firebase/firebaseLiveMatchGateway.ts:117-135 | Access is granted when there is no document, when it records no owner or an empty one (creatorUid first, else creator_uid), or when the actor is the owner. Otherwise it is denied with "forbidden-owner-mismatch". |
| FirebaseGateway.SummaryDocument | src/infrastructure/firebase/firebaseLiveMatchGateway.ts:247-282 | The summary a sync writes has the same value under every schema's name for a field. It records the author as owner (under both keys), the match id and the server. It holds the names, the colours (defaults blue/red, under all three colour keys) and the score line of the state (under both keys). It also holds the games, sets, doubles flag, status ("FINISHED" iff over, else "LIVE"), duration, start time, pause flag and the configuration without web colour keys. |
| FirebaseGateway.RealtimeDocument | src/infrastructure/firebase/firebaseLiveMatchGateway.ts:284-296 | The realtime document a sync writes carries the points and tie-break flag under both schemas' keys, and the history. |
| FirebaseGateway.OnlyTheSyncAuthorMayWrite | src/infrastructure/firebase/firebaseLiveMatchGateway.ts:245-269 | After a sync by a non-empty author, the ownership check grants exactly that author. |
| FirebaseGateway.SyncedSummary | src/infrastructure/firebase/firebaseLiveMatchGateway.ts:247-282 | Normalising a synced summary document gives back the match's id, server, names, colours (defaults blue/red), games, sets, status, clock, pause flag and configuration. |
| FirebaseGateway.SyncedConfig | src/application/live-sync/reconstructMatchState.ts:22-31 | Resolving the configuration of a synced summary gives back the synced configuration, with a missing colour as blue/red and a missing partner name taken from the fallback. |
| FirebaseGateway.ResumeAfterSync | src/infrastructure/firebase/firebaseLiveMatchGateway.ts:247-296 | Normalising the two documents a sync writes and rebuilding from them gives the synced state back. The exceptions: the match id is the document's, the winner and pending switch are dropped, missing colours read as blue/red, and missing partner names come from the fallback. |
| PlayerColors.KeyOfName | src/shared/playerColors.ts:1-11 | A name maps to the key with exactly that name, and to none when no key has it. |
| PlayerColors.KeyOfNameInverts | src/shared/playerColors.ts:1-11 | Looking up a key's name finds that key, so the ten names are distinct. |
| PlayerColors.KeyNameIsNormal | src/shared/playerColors.ts:199 | Key names are already trimmed and lower-case. |
| PlayerColors.NormalizePlayerColorKey | src/shared/playerColors.ts:191-205 | An absent or empty value gives the fallback. Otherwise the value, trimmed and lower-cased, gives the key of that name, and the fallback when no key has it. |
| PlayerColors.NormalizeIsIdempotent | src/shared/playerColors.ts:191-205 | A normalised key normalises to itself whatever the fallback. |
| PlayerColors.NormalizePlayerColorKeyAsWritten | src/shared/playerColors.ts:199-204 | The `in` test as written returns a key name or one of the names inherited from the object prototype, and the fallback's name for an absent or empty value. |
| PlayerColors.AsWrittenAcceptsInheritedName | src/shared/playerColors.ts:200 | As written, "constructor" is returned although no palette key has that name. |
| PlayerColors.AsWrittenAgreesOnOwnNames | src/shared/playerColors.ts:199-204 | Away from the inherited names, the written test and the corrected normalisation agree. |
| PlayerColors.ThemeTableIsKeyed | src/shared/playerColors.ts:26-187 | Every entry of the theme table is filed under its own key. |
| PlayerColors.ResolvePlayerColorTheme | src/shared/playerColors.ts:207-213 | The theme is the table entry of the normalised key, and the fallback's entry for an absent or empty value. |
| AuthErrors.MapAuthError | src/application/auth/mapFirebaseAuthError.ts:1-33 | The message is one of the nine fixed messages. It is the table's message for the ten known codes and the default message for any other code, including none. |
| AuthErrors.EveryMessageIsReachable | src/application/auth/mapFirebaseAuthError.ts:1-33 | Every message of the fixed set is what some error maps to, so the set is exactly the range of the mapping. |
| AuthErrors.CredentialFailuresLookAlike | src/application/auth/mapFirebaseAuthError.ts:14-17 | user-not-found, wrong-password and invalid-credential all give "Invalid email or password.". |
| AuthErrors.MissingCodeGetsDefault | src/application/auth/mapFirebaseAuthError.ts:2-9 | A missing, absent or empty code gives the default message. |
| RecentClubs.Strings | src/shared/recentClubsStorage.ts:17 | The kept entries are exactly the string elements. |
| RecentClubs.StringsAppend | src/shared/recentClubsStorage.ts:17 | Filtering a concatenation gives the filtered parts in order. |
| RecentClubs.LoadKeepsStringsInOrder | src/shared/recentClubsStorage.ts:5-21 | Loading an array keeps the string elements in order and with repeats, and drops everything else. Loading a concatenation gives the two loads concatenated, a one-string array gives that string, and a one-non-string array gives nothing. |
| RecentClubs.LoadRecentClubs | src/shared/recentClubsStorage.ts:5-21 | Nothing stored, unparsable text or a non-array loads as the empty list. An array loads as exactly its string elements. |
| RecentClubs.LoadAfterStore | src/shared/recentClubsStorage.ts:5-21 | Loading a stored list gives the same list back. |
| RecentClubs.Without | src/shared/recentClubsStorage.ts:32 | The filtered list holds exactly the other entries and never the club. |
| RecentClubs.PutFirst | src/shared/recentClubsStorage.ts:30-33 | The club comes first, followed by the other clubs in their order, cut to six entries in all. The club does not appear again. |
| RecentClubs.PutFirstIsIdempotent | src/shared/recentClubsStorage.ts:30-33 | Visiting the club visited last leaves the list unchanged. |
| RecentClubs.AddRecentClub | src/shared/recentClubsStorage.ts:23-42 | A blank topic, or a failed write, returns the stored list. Otherwise the list starts with the normalised topic, followed by the other stored clubs in order, at most six in all. |
| RecentClubs.AddedClubAppearsOnce | src/shared/recentClubsStorage.ts:30-33 | After a successful add, the club appears exactly once, at the front. |
| RecentClubs.RemoveRecentClub | src/shared/recentClubsStorage.ts:44-56 | A successful removal drops every entry equal to the normalised topic and keeps the rest in order. A failed write returns the stored list. |
| RecentClubs.RemoveAfterAdd | src/shared/recentClubsStorage.ts:44-47 | Removing the club just added leaves the other clubs that were kept, in order. |
| Scenarios.ThreePointsEachReachDeuce | src/tests/domain/addPoint.test.ts:14-23 | Three points each from 0-0 reach 40-40 without a game being won, with or without advantage. |
| Scenarios.NoAdDeuceScenario | src/tests/domain/addPoint.test.ts:8-33 | Without advantage, the point at 40-40 is a GAME_WIN. The winner leads the games 1-0 and the points are back to "0"/"0". |
| Scenarios.AdvantageScenario | src/tests/domain/addPoint.test.ts:35-53 | With advantage, the point at 40-40 gives "Ad" and the next point to the other side is deuce again. |
| Scenarios.TieBreakEntryScenario | src/tests/domain/addPoint.test.ts:55-81 | With tieBreakAt 2, the game that levels the set at 2-2 starts a tie-break at numeric 0-0. |
| Scenarios.SuperTieBreakScenario | src/tests/domain/addPoint.test.ts:83-106 | In the default configuration, at one set all and 9-8 in the deciding super tie-break, P1's point wins the match: MATCH_WIN, over, winner P1. |
| Scenarios.ReconstructScenario | src/tests/application/reconstructMatchState.test.ts:6-69 | A second-set summary with a 30-15 fragment resumes at index 1 at 30-15 with no pending switch. Without the fragment the points are 0-0, the history is empty and the server is the summary's. |
| Scenarios.ReconstructColourScenario | src/tests/application/reconstructMatchState.test.ts:71-94 | Summary colours reach the rebuilt configuration. |
| Scenarios.SnakeCaseScenario | src/tests/infrastructure/firebaseLiveMatchGateway.test.ts:128-184 | Documents written with snake_case keys normalise to the same typed summary and fragment. |

## Left out

- Scoring.AddPoint: the caller must give a `Scorable` state. The set index must name an existing set slot or the next one, and a tie-break winner must not hold "Ad". JavaScript would write past the end of the sets array, or score from NaN. Every well-formed state is scorable (`MatchInvariants.WellFormedIsScorable`).
- Scoring.ResolveTieBreakPoint: a ladder label met in a tie-break is taken at its `Number()` value ("15" is 15, "Ad" is NaN). Non-numeric strings other than the ladder labels cannot occur in the model.
- MatchInvariants.UndoAfterAddPoint: the exact round trip is not promised for a state without history. `undoPoint` (undoPoint.ts:11-18) resets such a state to a fresh match on its first undo. That drops the match id an app-created match was given (App.tsx:181-184), and for a match rebuilt from its summary alone it also drops the rebuilt score. `MatchInvariants.RebuiltMatchFirstUndoStartsAfresh` states the rebuilt case.
- FirebaseGateway.ResumeAfterSync: both sync writes are Firestore merges (`{ merge: true }`, firebaseLiveMatchGateway.ts:281 and 295). The round trip is proved for the documents as written. A stored document can keep fields an earlier writer set, such as the web schema's colour keys inside `config`, and the model does not promise anything about those.
- Scoring.RecordEvent: the event id and timestamp (`Date.now()` and `Math.random()`) are parameters, not generated.
- Text.ToLower: only ASCII capitals are lowered. JavaScript lowers every Unicode capital. `trim` uses the full JavaScript white-space set.
- LiveSync.LiveMatchSummary: the fields the reconstruction defends with `??` are optional in the model. `LiveMatchSummary.Complete` says when all are present, and `NormalizeSummary` always produces complete summaries.
- LiveSync.ResolveConfig: a key present in a spread config but holding `undefined` is treated as absent, which Firestore documents cannot express anyway.
- FirebaseGateway.NormalizeSummary: the `String()`, `Number()` and `Boolean()` coercions of values of another type are not modelled. Fields are typed, and only the colour and the status are checked at run time (`RawValue`).
- FirebaseGateway.CheckOwnership: only the decision is modelled. Reading the document and the non-atomic check-then-write are not, so no exclusive ownership is claimed across concurrent writers.
- AuthErrors.MapAuthError: a code of another type is not rendered with `String()`. The model has string codes or none.
- PlayerColors.ThemeOf: the theme colour strings are opaque data. The theme's `label` field is called `labelText` because `label` is a Dafny keyword. `PLAYER_COLOR_OPTIONS` (the table's values as a list) is not modelled.
- Scenarios: the test scenarios are lemmas about every state set up as in the test, one scoring call at a time. They are not replays from the initial state.
- Firestore I/O is not modelled: the subscriptions, `fetchMatch`, `endMatch`, `deleteMatch`, the topic/offline/id guards in front of them, `serverTimestamp`, `toEpochMillis`, and the ordering of club matches by last update.
- AsyncStorage and `JSON.parse`/`JSON.stringify` are not modelled. The stored value is an input, already parsed, and a write's success is a parameter.
- The React Native presentation code, the Firebase client and auth gateway wrappers, and user preference storage are not part of this model.

## Findings

| source | as written | input that shows it | evidently intended | confidence | as-written member | corrected member |
|---|---|---|---|---|---|---|
| src/shared/playerColors.ts:200 | `normalized in PLAYER_COLOR_THEMES` also finds names the table inherits from the object prototype, so a name that is no palette key is returned as a `PlayerColorKey` | the value "constructor" (also "__proto__") | only the ten palette keys are accepted; any other name gives the fallback | not executed | PlayerColors.NormalizePlayerColorKeyAsWritten (shown by PlayerColors.AsWrittenAcceptsInheritedName) | PlayerColors.NormalizePlayerColorKey (with PlayerColors.NormalizeIsIdempotent and PlayerColors.AsWrittenAgreesOnOwnNames) |
