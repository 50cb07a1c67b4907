# Método Essence — workout execution model

A Dafny model of the logic of a small fitness web application. The user picks
a ready workout (seven exercises) and the workout screen runs it as three
rounds. In each round, every exercise lasts 40 seconds and is followed by a
30-second rest. The last exercise of a round has no rest. It leads to the
between-rounds screen or, after the third round, to the final screen. Two
buttons skip forward and back. The countdown of a round's first exercise
waits until its video has loaded. Each exercise's video comes from a URL that
the video player turns into a YouTube, Canva or Google Drive embed, or into a
plain video source.

Modules:

- `Execution` — the state machine as pure transitions on a snapshot
  `ExecState(round, index, status, timeLeft, isVideoLoading, finished)`.
  `finished` stands for the navigation to the final screen. It also holds the
  invariant `Inv` of every reachable state. `Step`/`Run` say which event each
  screen accepts. The section ends with the lemmas, up to a whole workout
  driven by the timer.
- `Engine` — the screen's five state cells as the class `WorkoutExecution`.
  Its handlers overwrite the cells as the source does. Each is proved to keep
  `Valid()` and to perform the transition `Execution` defines.
- `Catalog` — `find` by id, resolving a workout's id list to exercises, and
  the translation lookup `t`.
- `VideoEmbed` — the embed-URL derivation of the video player. The YouTube id
  pattern is a function parameter `youtubeId: string -> Option<string>`.
- `Strings` — the JavaScript string operations used there: `includes`,
  first-occurrence `replace`, and `split(sep)[0]`.
- `Wrappers` — `Option`.

Constants: 3 rounds (`MaxRounds`), 40 exercise seconds (`ExerciseSeconds`),
30 rest seconds (`RestSeconds`).

Behaviour worth knowing, as the code has it:

- Skipping forward from the last exercise does not touch `timeLeft`
  (App.tsx:326-327, 332-333). The between-rounds screen keeps whatever was
  left. The timer sets it to 0 on the same transition.
- Skipping back at exercise 0 restarts the countdown and marks the video as
  loaded, so the loading gate does not apply again (App.tsx:362-363).
- The defensive "rest with no next exercise" branch (App.tsx:276-282) cannot
  be reached: `Inv` keeps `index + 1 < n` while resting.

## Model

| member | source | states |
|---|---|---|
| Execution.Tick | App.tsx:239-297 | a tick keeps the round, changes nothing while paused, moves the index only from a rest and only to a next exercise, and finishes only in round 3 on an expiring countdown (branch by branch in `CountdownStep`, `ExerciseExpires`, `RestExpires`) |
| Execution.EndOfRound | App.tsx:260-267 | the shared last-exercise decision: finished exactly when the round is ≥ 3, otherwise round complete; round, index, `timeLeft` and loading flag untouched |
| Execution.StartExercise | App.tsx:285-288 | an exercise starts at the given index, exercising, with 40 seconds and its video loading |
| Execution.StartRound | App.tsx:305-310 | a round starts at index 0, exercising, 40 seconds, video loading, same round |
| Execution.StartNextRound | App.tsx:312-315 | the next round is the round plus one, started at index 0, exercising, 40 seconds, video loading |
| Execution.PressStart | App.tsx:373-387 | the start button keeps the round on the opening screen and adds one between rounds, then starts at index 0 with 40 seconds |
| Execution.GoToNextExercise | App.tsx:317-342 | skip forward keeps the round, moves the index by at most one, and moves it exactly when a next exercise exists (after a rest: index+1 < n; otherwise: not the last); a move starts it fresh, no move leaves `timeLeft` and the loading flag (details in `NextExerciseShape`) |
| Execution.GoToPreviousExercise | App.tsx:344-366 | skip back keeps the round, always resets to 40, goes back one only from an exercise past index 0, and sets the loading flag exactly when the resulting index is not 0 (details in `PreviousExerciseShape`) |
| Execution.VideoLoaded | App.tsx:415 | `onVideoLoaded` clears the loading flag and nothing else |
| Execution.Step | App.tsx:373-449 | once finished nothing happens; only the start button can move the round; the start button starts a round at index 0; skip buttons and video signals do nothing off the exercise list |
| Execution.PausedTickChangesNothing | App.tsx:243-248 | a tick when idle, between rounds, or on exercise 0 while its video loads changes nothing |
| Execution.PausedTimerStaysPaused | App.tsx:243-248 | any number of timer events leave a paused screen exactly as it was |
| Execution.VideoLoadedLiftsGate | App.tsx:415 | `onVideoLoaded` clears the loading flag; a second call changes nothing; the next tick then counts down by one |
| Execution.CountdownStep | App.tsx:252-254 | with more than one second left, a running tick decrements `timeLeft` by 1 and changes nothing else |
| Execution.ExerciseExpires | App.tsx:257-272 | an expiring exercise: rest of 30 on the same index if not last; finish at the last one in round ≥ 3; otherwise round complete with 0 |
| Execution.RestExpires | App.tsx:274-290 | an expiring rest: exercise index+1 with 40 and video loading if it exists, else the same finish / round-complete decision |
| Execution.StartRoundShape | App.tsx:305-315 | a round starts at index 0, exercising, 40 seconds, video loading; the next round adds one to the round |
| Execution.NextExerciseShape | App.tsx:317-342 | skip forward keeps the round and stays within 0..n-1; with no next exercise it only takes the finish / round-complete decision, leaving `timeLeft`; otherwise index+1, exercising, 40, loading |
| Execution.PreviousExerciseShape | App.tsx:344-366 | skip back keeps the round, never goes below 0, resets to 40; from rest it keeps the index (loading iff index ≠ 0); from an exercise it moves back one (loading iff new index ≠ 0); at 0 it only restarts and marks the video loaded |
| Execution.InitialIsValid | App.tsx:220-224 | the opening state (round 1, index 0, idle, 0, loading) satisfies the invariant |
| Execution.TickKeepsInv | App.tsx:239-297 | a tick keeps the invariant and the round |
| Execution.NextKeepsInv | App.tsx:317-342 | skip forward keeps the invariant and the round |
| Execution.PreviousKeepsInv | App.tsx:344-366 | skip back keeps the invariant and the round |
| Execution.StartKeepsInv | App.tsx:373-387 | the start button keeps the invariant; it keeps the round on the opening screen and adds one between rounds |
| Execution.VideoLoadedKeepsInv | App.tsx:415 | the video signal keeps the invariant and the round |
| Execution.StepKeepsInv | App.tsx:373-449 | every event the screens accept keeps the invariant |
| Execution.RunKeepsInv | App.tsx:220-366 | every reachable state has round in 1..3 and index in 0..n-1; rest only before a next exercise; round complete only at the last index of rounds 1-2; finished only at the last index of round 3 |
| Execution.RoundMovesOnlyOnStart | App.tsx:312-315 | the round changes only by the start button on the between-rounds screen, and then by +1 |
| Execution.FinishOnlyAfterLastExercise | App.tsx:260-263 | the final screen is reached only from the last exercise of round 3, by its expiry or by skipping forward |
| Execution.FinishedIsFinal | App.tsx:262 | after the final screen is reached no event changes anything, so completion is signalled once; this rests on the screen unmounting after `navigate('/final')`, which `Step`'s first guard models |
| Execution.Countdown | App.tsx:252-254 | k < timeLeft ticks of a running countdown subtract exactly k |
| Execution.PhaseLasts | App.tsx:250-290 | a countdown at t takes its expiry transition after exactly t ticks |
| Execution.ExerciseThenRest | App.tsx:268-289 | 40 ticks of a non-last exercise and 30 of rest lead to the next exercise, fresh and loading |
| Execution.RoundVisitsInOrder | App.tsx:239-297 | after 70·k ticks of a round whose first video loaded, exercise k has just started: exercises are visited in order |
| Execution.RoundByTimer | App.tsx:305-315 | start, video ready and 70·(n-1)+40 ticks end the round at its last exercise |
| Execution.WorkoutByTimer | App.tsx:239-315 | from the opening screen, rounds 1 and 2 end between rounds and round 3 finishes at the last exercise |
| Engine.WorkoutExecution.constructor | App.tsx:220-224 | the cells start as round 1, index 0, idle, 0, video loading |
| Engine.WorkoutExecution.EndRound | App.tsx:260-267 | finish when round ≥ 3, otherwise round complete |
| Engine.WorkoutExecution.StartExercise | App.tsx:285-288 | sets index, exercising, 40 seconds, video loading |
| Engine.WorkoutExecution.Tick | App.tsx:239-297 | the timer's update of the cells is the `Execution.Tick` transition and keeps `Valid()` |
| Engine.WorkoutExecution.StartRound | App.tsx:305-310 | `startRound` is `Execution.StartRound` and establishes `Valid()` |
| Engine.WorkoutExecution.StartNextRound | App.tsx:312-315 | `startNextRound` is `Execution.StartNextRound` and keeps `Valid()` |
| Engine.WorkoutExecution.PressStart | App.tsx:373-387 | the between-rounds button is `Execution.PressStart` and keeps `Valid()` |
| Engine.WorkoutExecution.GoToNextExercise | App.tsx:317-342 | `goToNextExercise` is `Execution.GoToNextExercise` and keeps `Valid()` |
| Engine.WorkoutExecution.GoToPreviousExercise | App.tsx:344-366 | `goToPreviousExercise` is `Execution.GoToPreviousExercise` and keeps `Valid()` |
| Engine.WorkoutExecution.OnVideoLoaded | App.tsx:415 | `onVideoLoaded` is `Execution.VideoLoaded` and keeps `Valid()` |
| Engine.Open | App.tsx:227-232 | opening a workout gives a fresh valid screen over the resolved exercises, or none when the workout is unknown |
| Catalog.FindWorkout | App.tsx:227 | the found workout is one of the list with the requested id; none exactly when no workout has it |
| Catalog.FindExercise | App.tsx:230 | the found exercise is in the catalogue with the requested id; none exactly when the id is unknown |
| Catalog.FindIndex | App.tsx:227 | `find` by id: the first element with that id, or none when no element has it |
| Catalog.SessionExercises | App.tsx:227-232 | no exercise list exactly when no workout has the id |
| Catalog.ResolveExercises | App.tsx:229-232 | resolution yields at most one exercise per id, each from the catalogue and with an id of the workout |
| Catalog.ResolveKeepsKnownIdsInOrder | App.tsx:229-232 | the resolved ids are the workout's ids with the unknown ones dropped, in the workout's order |
| Catalog.ResolveAllKnown | App.tsx:229-232 | when every id is known, one exercise per id, in order |
| Catalog.Translate | App.tsx:18 | `t` gives the language's entry when present and non-empty, otherwise the key |
| Strings.IndexOf | components.tsx:143-146 | the first occurrence of a pattern, present exactly when `includes` holds |
| Strings.ReplaceFirst | components.tsx:158 | `replace` with a string pattern replaces exactly the first occurrence (the text before it, the replacement, the text after it), changes nothing without a match, and introduces no character outside the input and the replacement |
| Strings.BeforeFirst | components.tsx:157 | `split('?')[0]` is a prefix without `?` that is the whole string or stops at the first `?` |
| Strings.BeforeFirstWhenAbsent | components.tsx:157 | with no `?` the split keeps the whole string |
| VideoEmbed.IdRun | components.tsx:140 | the greedy id run: a prefix of id characters followed by the end or a non-id character |
| VideoEmbed.DriveMatchFrom | components.tsx:140 | the leftmost position where the Drive pattern (file path and at least one id character) matches |
| VideoEmbed.GetDriveId | components.tsx:139-142 | no id exactly when the Drive pattern matches nowhere; an id is a non-empty run of `[a-zA-Z0-9_-]` (position and maximality in `DriveIdIsMaximalRun`) |
| VideoEmbed.DriveId | components.tsx:143-144 | the guarded `driveId` equals `getDriveId` of the URL, and is present only when the URL contains the Drive host |
| VideoEmbed.IsCanva | components.tsx:145 | the Canva test is `includes('canva.com')` (its branch in `CanvaBranch`) |
| VideoEmbed.IsYoutube | components.tsx:146 | the YouTube test is `includes('youtube')` or `includes('youtu.be')` (its priority in `YoutubeHasPriority`) |
| VideoEmbed.CanvaBase | components.tsx:157-158 | the Canva base is the text before the first `?`, with the first `/edit` and then the first `/watch` turned into `/view`; with neither present it is that text unchanged (no `?` in `CanvaBaseHasNoQuery`) |
| VideoEmbed.DriveIdIsMaximalRun | components.tsx:139-142 | the Drive id is a non-empty maximal run of `[a-zA-Z0-9_-]` right after `drive.google.com/file/d/` |
| VideoEmbed.DriveHostTestIsImplied | components.tsx:143-144 | the `isDrive` test never changes `driveId` |
| VideoEmbed.EmbedUrl | components.tsx:148-168 | an embed URL, when there is one, is never empty, so the frame branch is taken exactly when it exists |
| VideoEmbed.Render | components.tsx:130-195 | the placeholder exactly when there is no URL; a frame exactly when an embed URL exists; a video otherwise |
| VideoEmbed.NoUrlGivesPlaceholder | components.tsx:130-137 | no URL, or an empty one, gives the placeholder |
| VideoEmbed.YoutubeHasPriority | components.tsx:146-154 | a YouTube URL never takes the Canva or Drive branch; without an extracted id there is no embed |
| VideoEmbed.YoutubeEmbedLoopsOnItself | components.tsx:152-153 | the YouTube embed is the no-cookie base, the id, and a query containing `playlist=` and the id |
| VideoEmbed.CanvaBranch | components.tsx:155-163 | a non-YouTube Canva URL embeds its rewritten base, `?`, and the fixed parameters |
| VideoEmbed.CanvaBaseHasNoQuery | components.tsx:157-158 | the rewritten Canva base has no `?` |
| VideoEmbed.CanvaEmbedHasOneQuery | components.tsx:157-163 | the Canva embed has exactly one `?`, right after the base |
| VideoEmbed.CanvaWithoutQuery | components.tsx:157-158 | a Canva URL without a query keeps all of its text before the `/edit` and `/watch` rewrites |
| VideoEmbed.DriveEmbed | components.tsx:164-165 | a Drive URL that is neither YouTube nor Canva embeds `https://drive.google.com/file/d/<id>/preview` |
| VideoEmbed.FallbackSource | components.tsx:195 | without an embed, the video source is the Drive download link when there is an id, else the URL unchanged |

## Left out

- Rendering, JSX, styling and animations (App.tsx:373-451 beyond the button and screen gating, components.tsx:59-85, 170-236): presentation only.
- Wall-clock scheduling with `setTimeout`/`clearTimeout` and the effect's re-arming (App.tsx:250, 296): one discrete `Tick` stands for one elapsed second.
- React's batching of state updates: each handler is applied as one atomic transition on the latest state.
- Routing: `navigate('/final')` is the `finished` flag; the redirect of an unknown workout (App.tsx:368-371) is `Engine.Open` returning `None`.
- Engine.WorkoutExecution.Tick: requires `!finished`, like the other handlers, because the screen is unmounted once it navigates away; updates scheduled after that are not modelled.
- Engine.Open: a known workout none of whose ids resolves gives `None` here. The source would open a screen with no exercises. The engine assumes at least one exercise; every shipped workout resolves all seven of its ids.
- Which exercise's video fired `onVideoLoaded`: every rendered exercise item calls the same handler, and the model has a single video-ready event.
- The video player's own `loading` overlay, its labels, and DOM effects: `scrollIntoView`, `window.scrollTo`, video `play`/`pause` (App.tsx:37-41, 299-303; components.tsx:100-128). These are UI side effects.
- `useUserData` and its `localStorage` persistence (App.tsx:28-36): browser I/O.
- The YouTube id pattern (components.tsx:150): an uninterpreted `youtubeId` parameter, with no regular-expression semantics.
- The language state itself (App.tsx:17): `Catalog.Translate` takes the language and the table as parameters.
- Static content: constants.ts (translations, exercises, workouts) and the display fields of types.ts.
