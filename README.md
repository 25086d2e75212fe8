# El Impostor — a verified model of the game's rules

"El Impostor" is a pass-and-play social-deduction word game. One device goes
round the table. Every civilian sees the secret word; the impostors see only
their role. The players then give one clue each, debate, and vote someone
out. The game ends when no impostor is left or when the configured win
condition for the impostors holds.

This project models the rules of the game in Dafny and proves what they
promise. One Dafny module per source file:

- `GameController` (App.tsx):
  - role assignment by rejection sampling;
  - building the initial players;
  - the choice of the secret word;
  - expelling a player and the win rules;
  - the phase graph;
  - the controller's state as a class.
- `ConfigNormalization` (gameConfig.ts): clamping and defaulting an untrusted configuration, and cleaning its category list.
- `Voting` (screens/VoteScreen.tsx): the insertion-ordered tally and the first-maximum choice of the expelled player.
- `Clues` (screens/RoundScreen.tsx): the turn walk and the collection of clues.
- `Reveal` (screens/RevealScreen.tsx): the shutter each player slides to see their role, and the walk round the table.
- `Debate` (screens/DebateScreen.tsx): the countdown, its fire-once automatic vote, and the `m:ss` clock face.
- `Setup` (screens/SetupScreen.tsx): default names, name edits, the impostor buttons, dictated names, the back button and the start guard.
- `GameOverView` (screens/GameOverScreen.tsx): the winner.
- `Scoreboard` (screens/ScoreboardScreen.tsx): signed deltas, the stable ranking sort, and the round history.
- `Library` (screens/LibraryScreen.tsx): the difficulty filter.
- `ClueValidation` (services/geminiService.ts): `validateClue`.
- `FontFit` (components/FitSingleLineText.tsx): the binary search for the largest font size that fits.

Two modules are shared:

- `Types` holds the entities of types.ts and the list operations the screens share (`filter`, subsequences).
- `Strings` holds the JavaScript string operations the rules rely on: `trim`, `toLowerCase`, and the printing of integers.

Code that changes state step by step is modelled as classes and methods:

- the controller, the vote, round, reveal, debate and setup screens;
- the font fitter;
- the role loop and the vote scan, as methods with loops.

Code that only computes is modelled as functions with lemmas.

Randomness is passed in as draws in `[0, 1)`, used as `Math.floor(draw * n)`. The external word generator's answer is a parameter: `None` when the call rejects. Text measurement is a predicate `fits(size)`. A pointer drag is the percentage it produces.

## Model

| member | source | states |
|---|---|---|
| GameController.RandomIndexInRange | App.tsx:41 | `Math.floor(Math.random() * n)` is a valid index of a non-empty list |
| GameController.EveryIndexReachable | App.tsx:41 | every index of a list of length n is produced by some draw in [0, 1) |
| GameController.LocalWord | App.tsx:37-43 | a word exists exactly when the catalog is non-empty; it is a catalog word of the requested difficulty, or any catalog word when that difficulty has none |
| GameController.LocalWordCoversDifficulty | App.tsx:37-43 | every catalog word of the requested difficulty can be the pick |
| GameController.StartWordSource | App.tsx:73-83 | a generator's answer that is not blank after trimming is always the word; a missing or blank answer falls back to the local pick, a catalog word of the requested difficulty whenever the catalog has one; there is no word exactly when the answer is missing or blank and the catalog is empty |
| GameController.CountRoleTotal | App.tsx:50-51 | every seat is either civilian or impostor |
| GameController.CountRoleFlip | App.tsx:57-59 | turning one civilian seat into an impostor raises the impostor count by exactly one |
| GameController.AssignRoles | App.tsx:50-61 | the loop ends (`complete`) exactly when it has placed `impostorCount` impostors, and then the rest are civilians; it never ends when `impostorCount` exceeds the seats; the impostor seats are exactly the distinct seats named by the draws read, and it stops reading at the first draw that brings them to `impostorCount` |
| GameController.FirstDrawDecides | App.tsx:55-60 | with one impostor over three seats and draws 0.0 then 0.5, seat 0 is the impostor and only one draw is read |
| GameController.ImpostorSeatsCount | App.tsx:56-59 | the number of impostor seats is the number of impostors, so placed impostors are distinct seats |
| GameController.PlayerIdsDiffer | App.tsx:64 | ids `p-i-…` and `p-j-…` differ for i ≠ j, whatever the random suffixes |
| GameController.InitialPlayers | App.tsx:63-69 | players keep the name order and take `roles[i]`; none is eliminated and every vote count is 0; ids are pairwise distinct |
| GameController.FindPlayer | App.tsx:95 | `find`: no result exactly when no player has the id; otherwise the first player that has it |
| GameController.TwoLeftEndsAtTwo | App.tsx:109 | under TWO_LEFT, with an impostor active, the game ends exactly when at most two players are active |
| GameController.ParityEndsAtParity | App.tsx:110 | under PARITY, with an impostor active, the game ends exactly when the active impostors are at least as many as the active civilians |
| GameController.NoCivilianRuleUnderTwoLeft | App.tsx:107-115 | under TWO_LEFT, no civilians and three or more impostors keeps the game going |
| GameController.Expel | App.tsx:95-96 | an id no player has yields no expulsion |
| GameController.ExpelChangesOnlyNamed | App.tsx:98-102 | with distinct ids, exactly the named player becomes eliminated and nothing else changes; the snapshot is that player before elimination |
| GameController.EliminationMonotone | App.tsx:98-100 | ids, names, roles and votes stay; flags only go from active to eliminated |
| GameController.LastImpostorExpelled | App.tsx:104-108 | expelling the last active impostor ends the game under either win condition |
| GameController.Transition | App.tsx:138-208 | only RoleReveal→RevealFinished and RoundResult→NextRound lead to ROUND_CLUES; only the clue, debate and vote callbacks advance; Back leads HOME from every phase; no navigation callback leads to ROLE_REVEAL, ROUND_RESULT or GAME_OVER |
| GameController.App.constructor | App.tsx:18-31 | the initial controller state (HOME, no players, round 1, 7 players, 1 impostor, MEDIUM, timer off at 30 s, TWO_LEFT) |
| GameController.App.CluePlayers | App.tsx:159 | the clue phase gets the non-eliminated players in table order, each as many times as at the table, and no eliminated one |
| GameController.App.StartGame | App.tsx:45-92 | configuration and game id are stored; the role draw completes exactly when it seats the requested impostors, never with more impostors than names; the impostor seats are exactly the distinct seats named by the draws read, and the draw stops at the first one that reaches the count; on completion the players are built from the drawn roles with exactly that many impostors, and then a word found sets it with round 1 and ROLE_REVEAL while no word sends the game HOME; an incomplete draw has read every draw and leaves players, phase, word and round as they were |
| GameController.App.HandleExpulsion | App.tsx:94-116 | an unknown id changes nothing, `lastExpelled` included; otherwise players, `lastExpelled` and the phase become those of `Expel` |
| GameController.App.Dispatch | App.tsx:138-208 | the phase follows `Transition`; `onNextRound` also adds exactly one to the round number |
| GameController.App.ChangeWord | App.tsx:163-166 | a non-empty answer becomes the word; an empty one is replaced by a local pick; a failed call leaves the word unchanged |
| ConfigNormalization.Dedupe | gameConfig.ts:14 | `Array.from(new Set(s))` holds each value of `s` once and nothing else |
| ConfigNormalization.DedupeKeepsFirstOccurrenceOrder | gameConfig.ts:14 | the values come out in the order of their first occurrence |
| ConfigNormalization.CleanedMembers | gameConfig.ts:13 | the cleaned entries are exactly the non-empty trimmed inputs, each already trimmed |
| ConfigNormalization.SanitizeFallsBack | gameConfig.ts:11-16 | a non-array or an all-blank list yields the catalog's category list |
| ConfigNormalization.SanitizeKeepsEntries | gameConfig.ts:11-16 | otherwise the result is trimmed, non-empty and duplicate-free, and holds exactly the non-blank trimmed entries |
| ConfigNormalization.NormalizeNumbers | gameConfig.ts:34-42 | `playerCount` is at least 3; `impostorCount` is in [1, min(3, playerCount − 1)]; `timerSeconds` is in [15, 180]; each is the floored input moved into range, or 7 / 1 / 60 when missing or not finite |
| ConfigNormalization.NormalizeChoices | gameConfig.ts:47-54 | a recognised difficulty, vote mode or win condition is kept and anything else falls back to MEDIUM / GROUP / TWO_LEFT; the flags take the input when present (`??`) |
| ConfigNormalization.NormalizeNothing | gameConfig.ts:18-32 | no configuration at all gives `DEFAULT_GAME_CONFIG` |
| ConfigNormalization.NormalizeFixpoint | gameConfig.ts:31-56 | a configuration within the bounds and with a clean category list normalises to itself |
| ConfigNormalization.NormalizeIdempotent | gameConfig.ts:31-56 | with a clean catalog list, normalising a normalised configuration changes nothing |
| Types.ParseDifficultyValue | types.ts:7-12 | each difficulty's string is recognised as that difficulty |
| Types.ActiveInTableOrder | screens/VoteScreen.tsx:12 | the active players are the non-eliminated ones in table order, each kept as many times as it occurs, and no eliminated one |
| Voting.AddVoteLookup | screens/VoteScreen.tsx:20-21 | a vote adds exactly one to its target's tally and leaves every other tally alone |
| Voting.AddVoteKeys | screens/VoteScreen.tsx:21 | a first vote for an id appends its key; later votes keep the key order |
| Voting.AddVoteSum | screens/VoteScreen.tsx:20-22 | each vote adds exactly one to the sum of the tallies |
| Voting.TallyCounts | screens/VoteScreen.tsx:19-22 | the tally counts each id as often as it was voted for, its keys are exactly the voted ids, and the tallies sum to the number of votes cast |
| Voting.TallyInFirstVoteOrder | screens/VoteScreen.tsx:20-33 | tally entries appear in the order in which the ids first received a vote |
| Voting.PickExpelled | screens/VoteScreen.tsx:24-33 | the scan returns the first entry holding the maximum count, or `''` when no count reaches 0 |
| Voting.FirstMaximumIsFirstVoted | screens/VoteScreen.tsx:25-32 | the chosen id has at least as many votes as any other, and among the tied ones it was voted for first |
| Voting.SomeoneExpelled | screens/VoteScreen.tsx:25-33 | once anyone has voted, the scan chooses a voted-for id |
| Voting.VoteScreen.constructor | screens/VoteScreen.tsx:12-15 | voters are the active players; the first voter starts in private mode with an empty tally |
| Voting.VoteScreen.Open | screens/VoteScreen.tsx:59 | the current voter leaves private mode and nothing else changes |
| Voting.VoteScreen.HandleVote | screens/VoteScreen.tsx:19-39 | the vote is counted; after the last voter the expelled id is the first maximum of the tally; otherwise the next voter takes over in private mode |
| Clues.BuildRoundCluesSpec | screens/RoundScreen.tsx:22-37 | a clue is listed for exactly the players with a non-blank entry, in turn order, with the trimmed text, the round number and the 1-based turn position |
| Clues.CluesAreTrimmed | screens/RoundScreen.tsx:26 | every listed clue is trimmed and non-empty |
| Clues.RoundScreen.HandleNextPlayer | screens/RoundScreen.tsx:40-67 | no current player: a no-op; capture on with a blank input: a warning and nothing else; otherwise only the current player's entry is set to the trimmed input, then the last turn hands over the clues and any other advances the turn and reloads the field; with capture on, a table of real clues (non-empty and trimmed) stays one |
| Clues.RoundScreen.SkipAllTurns | screens/RoundScreen.tsx:69-71 | the clues recorded so far are handed over |
| Clues.RoundScreen.constructor | screens/RoundScreen.tsx:13-17 | the turn list is the players given; the first turn starts with no clues, an empty input and no warning |
| Clues.RoundScreen.SetClueInput | screens/RoundScreen.tsx:118 | typing replaces the input field with the text typed and changes nothing else |
| Clues.SeatClueListed | screens/RoundScreen.tsx:22-37 | every seat with a non-blank clue has its trimmed clue listed, under its turn and its player id |
| Clues.LastClueIncluded | screens/RoundScreen.tsx:56-63 | the clue entered on the last turn is among those handed over |
| Reveal.ClampPercent | screens/RevealScreen.tsx:38 | the position is in [0, 100] and is unchanged exactly when it already was in range |
| Reveal.RevealScreen.HandleStart | screens/RevealScreen.tsx:24-28 | a drag starts from the current position, and the "next" button (line 145) is hidden while it lasts |
| Reveal.RevealScreen.HandleMove | screens/RevealScreen.tsx:30-42 | outside a drag nothing changes; otherwise the clamped position is taken and the reveal flag is set above 85 and never cleared |
| Reveal.RevealScreen.HandleEnd | screens/RevealScreen.tsx:44-53 | below 35: snaps shut, clears the flag and hides the "next" button; above 65: snaps open, sets the flag and offers the button; between them: nothing moves |
| Reveal.RevealScreen.HandleNext | screens/RevealScreen.tsx:55-63 | offered only after a reveal with no drag; each player hands on once, in table order; the last one finishes, any other passes a closed shutter to the next player |
| Reveal.RevealScreen.constructor | screens/RevealScreen.tsx:12-16 | the walk starts at the first player with a closed shutter, no drag and nothing revealed |
| Debate.Duration | screens/DebateScreen.tsx:14 | at least 15 s; a minute when the setting is 0; the setting itself when it is 15 or more |
| Debate.TwoDigitsValue | screens/DebateScreen.tsx:40 | seconds are printed as exactly two digits that read back as the value |
| Debate.FormatTimeReadsBack | screens/DebateScreen.tsx:37-41 | the clock face is digits, a colon and two digits, and reads back as the seconds shown |
| Debate.DebateTimer.constructor | screens/DebateScreen.tsx:13-16 | the countdown starts full and the auto-vote armed |
| Debate.DebateTimer.Tick | screens/DebateScreen.tsx:23-27 | one second passes only while the timer is on and above zero; it never goes below zero |
| Debate.DebateTimer.CheckAutoVote | screens/DebateScreen.tsx:29-35 | votes exactly when the timer is on, at zero and not yet fired; at most one automatic vote per duration |
| Debate.DebateTimer.ChangeTimerSeconds | screens/DebateScreen.tsx:18-21 | a new duration restarts the countdown and re-arms the auto-vote; the same duration changes nothing |
| Setup.DefaultNames | screens/SetupScreen.tsx:88-92 | exactly `playerCount` names (none for a negative count); name i is the requested name or `Agente i+1` |
| Setup.DefaultNameCases | screens/SetupScreen.tsx:21-90 | the first seven seats get the requested names, the rest `Agente n` |
| Setup.DefaultNamesDistinct | screens/SetupScreen.tsx:21-91 | the default names are non-empty and pairwise different |
| Setup.UpdateName | screens/SetupScreen.tsx:104-108 | only entry `index` changes; the length and every other entry stay |
| Setup.ImpostorOptionEnabled | screens/SetupScreen.tsx:166 | a button is enabled exactly when `num ≤ playerCount − 2` |
| Setup.EnabledImpostorChoiceIsSound | screens/SetupScreen.tsx:162-166 | an enabled choice leaves at least two civilians and is kept by the configuration normalisation |
| Setup.ApplyDetectedNames | screens/SetupScreen.tsx:78-80 | no detected names: nothing changes; otherwise a prefix of the detected names, `playerCount` long at most |
| Setup.DetectedNamesFitTable | screens/SetupScreen.tsx:79 | cut to the current table size, dictation never gives more names than seats, and fills the table exactly when enough names were heard |
| Setup.DictationOverfillsTable | screens/SetupScreen.tsx:79 | six dictated names all stay under the mount-time size 7, though the table has 4 seats |
| Setup.StartConfig | screens/SetupScreen.tsx:114-122 | the start configuration has the chosen counts and difficulty, no categories, a 60 s timer switched on, and TWO_LEFT |
| Setup.SetupScreen.constructor | screens/SetupScreen.tsx:12-19 | 7 players, 1 impostor, MEDIUM, no names, configuration view, not starting |
| Setup.SetupScreen.SetPlayerCount | screens/SetupScreen.tsx:150-153 | the slider sets a count in [3, 20] |
| Setup.SetupScreen.SelectImpostors | screens/SetupScreen.tsx:162-166 | only an enabled button sets the impostor count |
| Setup.SetupScreen.SelectDifficulty | screens/SetupScreen.tsx:185 | a difficulty button sets the difficulty and nothing else |
| Setup.SetupScreen.HandleNext | screens/SetupScreen.tsx:88-94 | the default names are filled in and the names view opens |
| Setup.SetupScreen.HandleBackAction | screens/SetupScreen.tsx:96-102 | from the names view back to configuration; from configuration the screen is left |
| Setup.SetupScreen.EditName | screens/SetupScreen.tsx:104-108 | the names become `UpdateName` of the old names |
| Setup.SetupScreen.NamesDetected | screens/SetupScreen.tsx:23-45 | the names become `ApplyDetectedNames` of the old names, cut to the table size 7 captured when the speech handler was installed at mount |
| Setup.SetupScreen.NamesDetectedForTable | screens/SetupScreen.tsx:77-80 | the names are cut to the current table size, so a detection never leaves more names than seats |
| Setup.SetupScreen.HandleStartGame | screens/SetupScreen.tsx:110-131 | ignored while a start is under way; otherwise hands over the start configuration and the names, and lets a new start through only if `onStart` throws |
| GameOverView.ImpostorsListed | screens/GameOverScreen.tsx:14 | the impostor list is the impostors in table order, each as many times as at the table, and nobody else |
| GameOverView.Winner | screens/GameOverScreen.tsx:15 | the civilians win exactly when every impostor is eliminated |
| GameOverView.NoImpostorsCivilWin | screens/GameOverScreen.tsx:15 | a table without impostors is a civilian win |
| GameOverView.WinnerMatchesActiveImpostors | screens/GameOverScreen.tsx:15 | the civilians win exactly when no impostor is active |
| GameOverView.WinnerAgreesWithOutcome | screens/GameOverScreen.tsx:15 | a game that ended with no active impostor is a civilian win; one ended by the TWO_LEFT or PARITY rule is an impostor win |
| Scoreboard.FormatDeltaReadsBack | screens/ScoreboardScreen.tsx:11 | a leading `+` appears exactly for positive values and `-` exactly for negative ones; the text reads back as the value |
| Scoreboard.WithTotals | screens/ScoreboardScreen.tsx:15-19 | each player is paired with their total, or 0 when they have none |
| Scoreboard.SortByTotalSpec | screens/ScoreboardScreen.tsx:20 | the sort gives non-increasing totals and a permutation of its input, and keeps the input order among equal totals |
| Scoreboard.RankingSpec | screens/ScoreboardScreen.tsx:14-21 | every player appears exactly once with their total; higher totals come first; ties keep table order |
| Scoreboard.Reverse | screens/ScoreboardScreen.tsx:66 | the history is shown newest first: entry k is entry n−1−k of the log |
| Scoreboard.ReverseInvolutive | screens/ScoreboardScreen.tsx:66 | reversing the shown history gives the log back |
| Scoreboard.DisplayName | screens/ScoreboardScreen.tsx:81 | the result is the id itself or the name of some player with that id |
| Scoreboard.DisplayNameFirstMatch | screens/ScoreboardScreen.tsx:81 | the first player holding the id decides: its name when not empty, the id otherwise |
| Scoreboard.VisibleDeltasSpec | screens/ScoreboardScreen.tsx:78-82 | no zero delta is listed; every non-zero delta is listed with its name and notes |
| Scoreboard.UnknownPlayerShownById | screens/ScoreboardScreen.tsx:81 | a delta for an id no player has is shown under the id |
| Library.FilterOptions | screens/LibraryScreen.tsx:12 | `TODAS` first, then each difficulty in declaration order, no option twice |
| Library.FilterOptionsCoverDifficulties | screens/LibraryScreen.tsx:12 | every difficulty is offered |
| Library.FilteredSpec | screens/LibraryScreen.tsx:14-16 | `TODAS` shows the catalog unchanged; a difficulty shows the catalog's words of that difficulty in catalog order, each as many times as in the catalog, and no other word |
| ClueValidation.SecretWordAlwaysCaught | services/geminiService.ts:42-55 | any clue equal to the secret word up to case, with any surrounding whitespace, is refused with the secret-word reason, which takes precedence over the too-short check |
| ClueValidation.ValidateClue | services/geminiService.ts:42-55 | a verdict carries a reason exactly when it is a refusal |
| ClueValidation.NormalizeIgnoresPadding | services/geminiService.ts:43-44 | surrounding whitespace does not change a normalised string |
| ClueValidation.NormalizeIgnoresCase | services/geminiService.ts:43-44 | lower-casing first does not change a normalised string |
| ClueValidation.VerdictIgnoresCaseAndPadding | services/geminiService.ts:42-55 | the verdict does not depend on the case or the surrounding whitespace of either argument |
| ClueValidation.Utf16Length | services/geminiService.ts:50 | `length` counts UTF-16 code units: never fewer than the characters |
| FontFit.SearchFontSize | components/FitSingleLineText.tsx:24-38 | `best` is `min` or a size in range that fits; `best = min` when `min > max`; every probe lies in range; for a monotone `fits`, no fitting size in range is larger than `best` |
| FontFit.FitSingleLineText.constructor | components/FitSingleLineText.tsx:10-13 | the text starts at the largest size |
| FontFit.FitSingleLineText.Fit | components/FitSingleLineText.tsx:20-41 | a container without width changes nothing; otherwise the size becomes the search result |

## Findings

| source | as written | input that shows it | evidently intended | confidence | as-written member | corrected member |
|---|---|---|---|---|---|---|
| screens/SetupScreen.tsx:23-45 | the speech handler is installed once at mount and calls the first render's `processTranscriptWithGemini`, so dictated names are cut to `playerCount` as it was then, 7 | table set to 4 seats, six names dictated: all six names stay, and `onStart` gets six names for a four-seat configuration | cut the names to the current table size (line 79) | not executed | Setup.DictationOverfillsTable | Setup.SetupScreen.NamesDetectedForTable |

## Left out

- Network calls: `fetchSecretWord` is an `Option<string>` parameter (`None` when it rejects). Gemini transcription of dictated names is not part of this model; only what `SetupScreen` does with the names it returns is.
- Speech recognition, DOM geometry, `ResizeObserver`, `requestAnimationFrame` and `setInterval` are browser APIs. They become inputs: a percentage, a `fits` predicate, and tick events.
- Rendering and styles are not modelled. HomeScreen, ResultScreen and RulesScreen only render, and the scoring rules RulesScreen describes are not implemented in the modelled files.
- `async`/`await`: each handler is one atomic step, because the app is single-threaded and event-driven.
- `Math.random` in ids and `gameId`: the id suffix is an arbitrary function of the seat, and the game id is a parameter. Only the `p-i-` prefix matters for distinct ids.
- GameController.AssignRoles: a finite list of draws stands for the endless supply of `Math.random`. Running out of draws (`complete` false) stands for the loop that has not ended yet, which with more impostors than seats is forever.
- GameController.App.StartGame: requires the SETUP phase, since only the setup screen calls `startGame`.
- `Player.eliminationRound`, `Player.clue` and the `VoteResolution` type drive no logic in these files and are omitted from the model. `voteMode` and `aiWordGenerationEnabled` drive none either; they are carried in `GameConfig` as data only.
- JavaScript orders integer-like object keys before the others. The vote tally and the score deltas are modelled in plain insertion order, which matches it for the generated player ids.
- `toLowerCase` is modelled for ASCII and Latin-1 letters only. Other scripts' case mappings are not modelled.
- NaN, infinities and fractional values of numeric fields are modelled only where gameConfig.ts normalises them: a missing or non-finite number is `None`, and a finite one is a `real` that is floored. Elsewhere numbers are integers.
- RoundScreen's props (`clueCaptureEnabled`, `onCluesFinished` with clues) differ from what App.tsx passes. Each file is modelled on its own terms.
- types.ts does not declare `clueCaptureEnabled`, which gameConfig.ts uses. The `GameConfig` datatype carries it. Where a source literal omits `aiWordGenerationEnabled` or `clueCaptureEnabled`, the model sets false, as an absent field reads falsy. Where it omits `voteMode`, the model fills in GROUP; no modelled code reads that field.
- Setup.SetupScreen.SetPlayerCount: like the source, it does not lower an impostor count the new table size disables.
- Reveal.RevealScreen.HandleMove: takes the unclamped percentage as its input. The pixel arithmetic that produces it is left out.
- Reveal.RevealScreen: `startY` (pixels) is left out with the pointer geometry.
