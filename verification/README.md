# Rettegés éjszakája — a verified model of the moderator's engine

Rettegés éjszakája is a browser moderator for a One Night Werewolf style party game. The
players choose which character cards are in play. The app then narrates the night as a script
of stages. Each stage plays a few recorded audio snippets with silent breaks between them. The
stage moves on when its audio is done or when someone presses "Ugrás a kövire" (skip).

This Dafny project models the engine behind that:

- **GameLogic**: the 18 character cards and the 13-stage night script as constants, the
  Hungarian role names, and the stage filter `getEnabledStages`.
- **Audio**: which audio names the script references, which of them a stage plays (the opening
  depends on how many characters are in play), how long a list of snippets lasts, and the
  name-keyed snippet map.
- **Playback**: `playAudio` as an event-trace machine. The moment the skip's abort fires is an
  input (an oracle). A run resolves `false` (completed), resolves `true` (cancelled), or never
  settles (suspended: a paused snippet never reports its end).
- **Selection**: the selection screen — the selection vector, the card toggle, the start button
  and its text, the music button.
- **Game**: the session state with `nextStage` and `onStart`, the selected characters, the
  villager fallback for the slideshow, and the planned stage lengths, filtered down to the
  enabled stages.
- **StageScreen**: the break a stage uses, the character it shows, `moveToNextStage`, the
  play-then-advance effect (as written and guarded), the top and bottom timers and
  `formatTime`.
- **Controller**: the whole session as a state machine over card clicks, the start button, the
  skip button and settling playback runs. It also holds the invariant that a running session
  points at an enabled stage, and the stale-run counterexample.

The model follows the code in these places:

- A stage with breaks switched off still waits between its snippets, for 0 ms each time.
- A skip while a snippet plays pauses it, and that run then never settles. It does not resolve
  `true`.
- A missing `breaks` flag counts as breaks on.
- A non-start stage without audio files plays nothing. There is no configuration error.
- A stage with no audio plans −5000 ms. Nothing clamps the break count at 0.
- The stage type of the source also admits a normal stage of type `start`. Its `few` name would
  be undefined, so the model's `Stage` sum type leaves that combination out.

## Model

| member | source | states |
|---|---|---|
| GameLogic.DisplayableName | modules/game-logic.ts:93-109 | every role type has a non-empty Hungarian name; werewolf is "vérfarkas", villager "falusi", seer "látnok" |
| GameLogic.DisplayableNameInjective | modules/game-logic.ts:95-108 | no two role types share a displayed name |
| GameLogic.HasRole | modules/game-logic.ts:115 | `some(c => c.type === t)` holds exactly when some selected character has role `t` |
| GameLogic.EnabledStagesMembership | modules/game-logic.ts:111-118 | a stage is enabled iff it is in the catalogue and the filter keeps it; the result is no longer than the input |
| GameLogic.EnabledStagesIsSubseq | modules/game-logic.ts:118 | the enabled stages are a subsequence of the catalogue, in catalogue order |
| GameLogic.EnabledStagesMultiplicity | modules/game-logic.ts:118 | a kept stage occurs as often as in the input, a dropped one never |
| GameLogic.RoleStageKeptIff | modules/game-logic.ts:115-117 | a role stage is kept iff its role is selected, and a minion is selected when it needs one, and an insomniac when it needs one |
| GameLogic.StartAndEndAlwaysKept | modules/game-logic.ts:113-114 | start and end stages are kept for every selection, the empty one included |
| GameLogic.EnabledStagesMonotonic | modules/game-logic.ts:115-117 | selecting more characters never drops a stage: the smaller selection's stages are a subsequence of the larger one's |
| GameLogic.StagesWellFormed | modules/game-logic.ts:60-91 | in the shipped script each stage's index is its position, there is one start stage (first) and one end stage (last), and every other stage has audio; 18 cards, 13 stages |
| GameLogic.EmptySelectionStages | modules/game-logic.test.ts:13-23 | with nobody selected exactly the opening and the closing stage are enabled |
| GameLogic.EmptySelectionKeepsStartAndEnd | modules/game-logic.ts:111-118 | in any well-formed script, the empty selection enables only its first and last stage |
| GameLogic.OnlyStartAndEnd | modules/game-logic.ts:111-118 | a selection that keeps no role stage enables exactly the first and the last stage |
| GameLogic.NoVillagerStage | modules/game-logic.ts:60-91 | no stage of the script belongs to the villagers |
| GameLogic.VillagersOnlyStages | modules/game-logic.ts:111-118 | a selection of villagers only enables the opening and the closing stage |
| GameLogic.LoneWerewolfStages | modules/game-logic.test.ts:25-35 | a lone werewolf keeps the werewolf stage and drops the mason stage and the minion-conditioned doppelganger stage |
| GameLogic.LoneVillagerStages | modules/game-logic.test.ts:37-47 | a lone villager enables no werewolf stage |
| GameLogic.LoneCharacterStages | modules/game-logic.ts:115 | a single selected character enables no stage of another role |
| Audio.AllAudioNamesAppend | modules/audio.ts:29-37 | flattening distributes over concatenation of stage lists |
| Audio.AllAudioNamesMembership | modules/audio.ts:29-37 | a name is listed iff some stage references it |
| Audio.AllAudioNamesLength | modules/audio.ts:29-37 | three names per start stage plus every audio file of the other stages |
| Audio.CatalogueAudioNameCount | modules/audio.ts:29-37 | a well-formed script lists 3 plus the number of its audio files |
| Audio.AudioNamesToPlay | modules/audio.ts:39-45 | the start stage plays exactly one name: `few` for at most 6 characters, `many` for 7 to 17, `all` for 18 or more; other stages play their audio files unchanged |
| Audio.NamesToPlayAreCatalogued | modules/audio.ts:29-45 | every name a script stage plays is among the script's audio names |
| Audio.TotalLengthAppend | modules/audio.ts:47-49 | the total length is additive over concatenation |
| Audio.TotalLengthExamples | modules/audio.test.ts:47-64 | `[]` lasts 0 ms; 1000, 2000 and 3000 ms last 6000 ms |
| Audio.SnippetMapContents | modules/audio.ts:89 | the fold's keys are exactly the snippet names, each key maps to a snippet of that name, the last one of that name |
| Audio.LoadSnippets | modules/audio.ts:86-90 | the map's keys are exactly the requested names, each mapping to a snippet of its own name |
| Audio.LoadSnippetsDistinct | modules/audio.ts:86-90 | with no name requested twice, each name maps to its own snippet |
| Playback.PlayAudioOutcome | modules/audio.ts:51-75 | a run resolves `true` iff the abort was heard before a break that another snippet follows; it never settles iff a snippet was paused mid-playback; otherwise it resolves `false` |
| Playback.PlayAudioPlays | modules/audio.ts:54-56 | the snippets are started in order 0, 1, …, each once, all of them when the run completes and none after the one the abort stopped at |
| Playback.PlayAudioWaits | modules/audio.ts:66-69 | every break lasts `breakMs`; a completed run waits n−1 times, none after the last snippet |
| Playback.UninterruptedRun | modules/audio.ts:54-74 | without an abort every snippet plays in order, n−1 breaks are waited out and the run resolves `false`; an empty list does nothing |
| Playback.PlayAudioLastEvent | modules/audio.ts:66-72 | a cancelled run ends with a break, so `true` is returned only right after a completed break; a suspended run ends with the pause of its snippet |
| Playback.PlayAudioListeners | modules/audio.ts:57-64 | a listener is attached only when none is, only the attached one is removed, and a fired listener pauses only its own snippet |
| Playback.PlayAudioResets | modules/audio.ts:55-56 | every snippet is reset to position 0 right before it is started |
| Playback.ThreeSnippets | modules/audio.ts:54-69 | three snippets start as 0, 1, 2 with two 5000 ms breaks; with breaks off there are two 0 ms waits |
| Playback.SkipInTheMiddle | modules/audio.ts:60-72 | a skip in the break after the second of three snippets cancels before the third starts; a skip while it plays leaves the run unsettled |
| Selection.SelectedCount | modules/CharacterSelectionScreen.tsx:21 | the count is the number of true entries in the selection |
| Selection.Toggle | modules/CharacterSelectionScreen.tsx:48-52 | a click flips entry `i` and leaves every other entry as it was; past the end of a short vector the gap reads false and entry `i` becomes true |
| Selection.ToggleTwice | modules/CharacterSelectionScreen.tsx:48-52 | clicking the same card twice restores the selection |
| Selection.ToggleCount | modules/CharacterSelectionScreen.tsx:48-52 | each click changes the count by exactly one: down when it puts a chosen card back, up otherwise, including a click past the end of a shorter restored vector |
| Selection.StartClick | modules/CharacterSelectionScreen.tsx:59 | the start button starts iff the snippets are ready and at least 3 cards are chosen, and then passes exactly the current selection |
| Selection.NothingChosenIsDisabled | modules/CharacterSelectionScreen.test.tsx:33-48 | with no card chosen the start button is disabled |
| Selection.StartButtonText | modules/CharacterSelectionScreen.tsx:22-27 | fewer than 3 chosen gives the "choose at least three" text whatever the readiness; otherwise ready gives the start text and not ready the wait text |
| Selection.StartTextMatchesButton | modules/CharacterSelectionScreen.tsx:22-27 | the start text shows iff the button is enabled |
| Selection.MusicClick | modules/CharacterSelectionScreen.tsx:63 | the music button hands the setter the negated flag |
| Selection.MusicLabel | modules/CharacterSelectionScreen.tsx:68 | the label is "Zene be" when paused and "Zene ki" otherwise |
| Selection.MusicClickFlipsLabel | modules/CharacterSelectionScreen.test.tsx:50-69 | a click flips the label; pressing "Zene ki" pauses the music |
| Game.SelectedCharactersFacts | modules/Game.tsx:30 | the selected characters are the cards at true positions, in card order; a full-length selection selects as many as it counts |
| Game.PickMembership | modules/Game.tsx:30 | a card is selected iff some position holding it is true |
| Game.OfRole | modules/Game.tsx:32 | the filter keeps exactly the selected characters of the role, and is non-empty iff the role is selected |
| Game.Villagers | modules/Game.tsx:31-37 | the slideshow's villagers are never empty and are all villagers: the selected ones if any, else the `villager_5` card |
| Game.Lookup | modules/Game.tsx:48 | looking the names up succeeds iff every name has a snippet, and then yields each name's snippet in order |
| Game.StageLengthMs | modules/Game.tsx:46-52 | a stage has a planned length iff all its names have snippets |
| Game.StageLengthSplit | modules/Game.tsx:47-51 | the planned length is the audio total plus (n−1)·5000 ms, or the audio total alone when the stage switches breaks off |
| Game.AllStageLengthsMs | modules/Game.tsx:43-55 | there are no lengths until a snippet has loaded, then one per script stage |
| Game.StageLengths | modules/Game.tsx:46-52 | the i-th length is the i-th stage's planned length; it fails only when some stage's length does |
| Game.LoadedCatalogueHasLengths | modules/Game.tsx:40-55 | once every script name has loaded, the map counts as loaded (iff there are names) and every stage has a length |
| Game.CurrentStageSnippets | modules/Game.tsx:83-89 | the current stage has snippets iff the index is within the enabled stages and every name it plays is loaded; then there is one snippet per name, in order, each the map's entry for that name |
| Game.CurrentStageSnippetsLoaded | modules/Game.tsx:83-89 | once loaded, every enabled stage has one snippet per name it plays |
| Game.FindIndex | modules/Game.tsx:65 | `find` yields an enabled stage with that index, or there is none |
| Game.FindEnabledIndex | modules/Game.tsx:65 | in a well-formed script, the stage numbered j is found iff the filter keeps the stage at position j |
| Game.EnabledLengthsAligned | modules/Game.tsx:64-67 | the filtered lengths have one entry per enabled stage, and the k-th is the length of the script stage with the k-th enabled stage's index |
| Game.PlannedLengthExample | modules/Game.tsx:47-51 | 1000 ms and 2000 ms with breaks plan 8000 ms; 500 ms with breaks off plans 500 ms |
| Game.StageCountAtLeastTwo | modules/game-logic.ts:113-114 | every selection enables at least two stages |
| Game.NextStage | modules/Game.tsx:68-75 | below the last position `nextStage` increments the index and stays started; at the last it stops the session at index 0 |
| Game.NextStageValid | modules/Game.tsx:68-75 | called with the current index, `nextStage` keeps `0 ≤ stageIndex < count` whenever started |
| Game.OnStart | modules/Game.tsx:77-81 | `onStart` stores the selection and starts at stage 0 with a fresh controller, on an enabled stage |
| StageScreen.BreakMs | modules/StageScreen.tsx:43 | the break is 5000 ms when `breaks` is true or missing and 0 when it is false |
| StageScreen.PlanMatchesRun | modules/Game.tsx:47-51 | a stage's planned length equals its audio total plus the breaks an uninterrupted `playAudio` run with this screen's break actually waits |
| StageScreen.UninterruptedBreakTotal | modules/audio.ts:66-69 | an uninterrupted run of n > 0 snippets waits ms·(n−1) in total |
| StageScreen.StageBreakTotal | modules/StageScreen.tsx:43 | an uninterrupted run of a stage's n > 0 snippets waits 5000 ms per gap, or nothing when the stage switches breaks off |
| StageScreen.CurrentCharacter | modules/StageScreen.tsx:31 | a character is shown iff the stage is a role stage whose role is selected; it is a selected character of that role |
| StageScreen.CurrentCharacterIsFirst | modules/StageScreen.tsx:31 | the character shown is the first of its role in selection order |
| StageScreen.EnabledRoleStageHasCharacter | modules/StageScreen.tsx:31 | every enabled role stage has a character to show |
| StageScreen.StageLabel | modules/StageScreen.tsx:119 | the top timer labels start and end as `start` and `end`, and a role stage by its Hungarian name |
| StageScreen.StageLabelsDistinct | modules/StageScreen.tsx:119 | equal labels mean the same kind of stage, and the same role |
| StageScreen.MoveToNextStage | modules/StageScreen.tsx:36-40 | a skip installs a fresh controller and runs `nextStage` once, with the index its closure saw |
| StageScreen.MoveToNextStageIsNextStage | modules/StageScreen.test.tsx:36-56 | apart from the controller, a skip changes the session exactly as one `nextStage` |
| StageScreen.SettleAsWritten | modules/StageScreen.tsx:42-47 | as written, a run that resolves `false` calls `nextStage` with its own closure's index: one stage on while that index is not the last, otherwise the session ends at stage 0; `true` or never settling changes nothing |
| StageScreen.SettleGuarded | modules/StageScreen.tsx:42-47 | guarded, only the completed run of the current stage and controller advances |
| StageScreen.GuardOnlyDropsStaleRuns | modules/StageScreen.tsx:42-47 | for the current run the guarded and the as-written settle agree |
| StageScreen.OnlyCompletedRunsAdvance | modules/StageScreen.tsx:44-46 | a cancelled or suspended run never moves the session |
| StageScreen.TopElapsed | modules/StageScreen.tsx:110 | the top timer's elapsed time is the time since the stage started, clamped at 0 |
| StageScreen.TopBar | modules/StageScreen.tsx:116-117 | one bar per enabled stage: a bar is full iff it is before the current stage, empty iff after it, and only the current stage's bar shows the elapsed time |
| StageScreen.BottomElapsed | modules/StageScreen.tsx:130 | the bottom timer's elapsed time is capped at the planned length |
| StageScreen.Remaining | modules/StageScreen.tsx:130-134 | the remaining time is never negative; it is the planned length minus the elapsed time, or 0 once that has passed |
| StageScreen.RemainingCountsDown | modules/StageScreen.tsx:130-134 | the countdown never rises as time passes, and it stays at 0 once the length has elapsed |
| StageScreen.FormatTime | modules/StageScreen.tsx:138-140 | both decimal digits are below 10, and seconds·1000 + tenths·100 + hundredths·10 is the time minus its last millisecond digit |
| StageScreen.FormatTimeRoundTrip | modules/StageScreen.tsx:138-140 | a time on a 10 ms step formats back to its own digits |
| StageScreen.ClockUnique | modules/StageScreen.tsx:138-140 | two displays with in-range digits that show the same time are equal |
| StageScreen.BottomDisplay | modules/StageScreen.tsx:134 | the displayed time is the remaining time rounded down to 10 ms |
| Controller.Apply | modules/Game.tsx:68-81 | the guarded machine: cards only toggle on the selection screen, skip only acts on the stage screen, and (by the guard) a run that is not the current one changes nothing |
| Controller.ApplyAsWritten | modules/StageScreen.tsx:42-47 | as written, the step differs from the guarded one only for a completed run that is not the current stage's run on the current controller, or that settles with no session running; a completed run always moves the session by its own closure's index |
| Controller.InitialValid | modules/Game.tsx:20-25 | the first visit has nothing chosen and no session |
| Controller.ApplyPreservesValid | modules/Game.tsx:68-75 | every step of the guarded machine keeps a running session on an enabled stage |
| Controller.ReplayPreservesValid | modules/Game.tsx:68-75 | so does every sequence of steps of the guarded machine |
| Controller.SelectionFixedWhileStarted | modules/Game.tsx:93-113 | the selection, and with it the enabled stages, cannot change during a session |
| Controller.FewerThanThreeStaysSelecting | modules/CharacterSelectionScreen.tsx:59 | with fewer than three cards chosen the start button does nothing |
| Controller.StartButtonStarts | modules/Game.tsx:77-81 | with the snippets loaded and three cards chosen, the start button starts at stage 0 with that selection |
| Controller.SkipAdvancesOrEnds | modules/StageScreen.tsx:36-40 | a skip moves one stage on, or from the last stage back to the selection screen, with a fresh controller |
| Controller.CompletedRunsFinishTheSession | modules/StageScreen.tsx:42-47 | completing each stage's run in turn walks through all enabled stages and ends on the selection screen |
| Controller.ThreeVillagersStages | modules/game-logic.ts:111-118 | three villagers enable just two stages |
| Controller.OpeningRunMissesEarlyAbort | modules/audio.ts:56-64 | the opening plays one snippet with 5000 ms breaks, and an abort while its `play()` is awaited is missed, so the run completes |
| Controller.StaleRunOverruns | modules/StageScreen.tsx:42-47 | as written, three villagers plus an early skip plus the stale completion reach stage index 2 of 2, where there is no stage |
| Controller.StaleRunIgnored | modules/StageScreen.tsx:42-47 | with the guard, the same actions stay on the closing stage |

## Left out

- HTMLAudioElement I/O (`loadSnippet`, `waitToFinish`, `getAudioUrl`, `useBackgroundMusic`) is not modelled. Snippets are positions in a list, and the media element becomes `Reset`/`Play`/`Pause` events.
- `Promise.all` rejecting, and metadata that never loads, are not modelled. Loading always yields one duration per requested name.
- Playback.PlayAudio: a `play()` that rejects is not modelled, so `Outcome` has no rejected case. The promise of `playAudio` then rejects and its `.then` never runs. For the session this acts like a `Suspended` run, which the model has: the stage waits for a skip.
- Audio durations are whole milliseconds (`nat`). The source has floating-point `audio.duration * 1000`.
- Timers and the wall clock (`setInterval`, `new Date()`, `wait`) are inputs: the current time and the start time are parameters.
- StageScreen.TopBar: the current stage's fill fraction (elapsed over planned, a float) is not computed, only which bar is current.
- StageScreen.Remaining: the value shown before a stage's first 100 ms tick is not modelled. The bottom timer is not remounted between stages and its elapsed time is not reset, so until that tick it shows the new planned length minus the previous stage's capped elapsed time. Only the first stage of a session shows its full planned length; a later one can show a negative time (an 8000 ms stage after a 20000 ms one shows −12000 ms).
- StageScreen.FormatTime: gives the three numbers, not the string. For negative or fractional inputs the source's `Math.floor` output is not modelled.
- `useLocalStorage` and `parse` are not modelled (browser storage and JSON). The session starts from the default selection instead.
- JSX rendering is not modelled, including the Slideshow's fade timing and CharacterCard's image URLs.
- The older screens under `pages/` are not modelled. Their imports point outside the repository, and their logic repeats the `modules/` versions.
- Real concurrency is reduced to the abort-timing oracle and the `Settled` action. A settling run's context is arbitrary: it is not tied to a run that was actually started. In particular, as written, a run's closure also captured the enabled stages of its own render, while `StageScreen.SettleAsWritten` compares the closure's index with the current selection's stage count. The two differ only when a stale run settles after the selection changed between sessions.
- Effects re-running because a dependency is a new object on each render are not modelled. Each stage screen's run is started once per controller.
- Game.Villagers: the fallback is the card at position 15, which is the `villager_5` card. It is not proved that no other card has that id.

## Findings

| source | as written | input that shows it | evidently intended | confidence | as-written member | corrected member |
|---|---|---|---|---|---|---|
| modules/StageScreen.tsx:42-47 | a run that resolves `false` calls the `moveToNextStage` of the render that started it, even after a skip has replaced its controller | choose three villagers (only the opening and closing stages), start, and skip while the opening's single snippet is still in `play()`: the abort reaches no listener, the snippet plays out, and the run's completion advances the session from the closing stage to index 2 of 2 stages | only the run of the current stage, listening to the current controller, may advance the session | not executed; depends on the skip landing before the listener is attached | Controller.StaleRunOverruns | Controller.ApplyPreservesValid |

`StageScreen.SettleAsWritten` is the effect as written and `StageScreen.SettleGuarded` is the
guarded one; `Controller.Apply` uses the guarded one.
