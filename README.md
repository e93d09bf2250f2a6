# Flappy Bird simulation core, modelled in Dafny

This project models the simulation core of a small pygame Flappy Bird clone in two generations:

- **The component version.** A `GameController` drives:
  - a `Bird` (gravity, tilt, flap animation, a ceiling clamp, a drop animation after death);
  - a list of `Pipe`s that scroll left;
  - a `GameState` with three flags (started, over, bird falling);
  - a `ScoreManager` that loads and saves the high score;
  - the fade of the game-over overlay, from `UI`.
- **The legacy single file `bird.py`.** It has a simpler bird and the same pipes. Its state is module-level flags. Its game-over screen writes the high-score file and goes straight back to the menu.

Rendering, sounds, particles and fonts are outside the model. What remains is the state each frame reads and writes.

Each core class is a Dafny `class` with the fields the simulation reads and writes (drawing assets, fonts, particles and buttons left out). Each class has a `View()` function that returns its state as a value. Each method is proved to take its state to what a pure function of the old state says (`ensures View() == Stepped(old(View()))`). The properties are then proved about those functions. The pure functions are:

- `Stepped`, `Started`, `Saved`, `Advanced`;
- the controller's `AfterEvent` and `Updated`;
- the legacy `AfterEvent` and `Updated`.

The files:

| file | what it holds |
|---|---|
| `constants.dfy` | the constants of `src/utils/constants.py` (identical to the legacy ones) and the valid range of the random gap draw; an `Option` type |
| `geometry.dfy` | rectangles, the bird's hitbox, overlap of two rectangles |
| `pipes.dfy` | `Pipe`, its scrolling, its two rectangles, when a spawned pipe leaves the screen |
| `pipe_sweep.dfy` | the per-frame `for pipe in pipes:` loop that moves, removes, scores and collision-checks the pipes; both programs use it |
| `events.dfy` | the events a frame can see |
| `birds.dfy` | the component `Bird` |
| `game_state.dfy` | `GameState` |
| `scores.dfy` | `ScoreManager`, with the file's content as a parameter |
| `death_screen.dfy` | the fade of `UI` |
| `controller_model.dfy` | the controller's whole state as a value, its events, its `update` phases, and the game's invariants |
| `controller.dfy` | `GameController` as a class over the component objects, proved against `controller_model.dfy` |
| `legacy.dfy` | `bird.py`: the value model, its invariants, and a `Bird` and `Game` class proved against it |

### The pipe loop

Both programs remove a pipe from the list while iterating over it with `for pipe in pipes:`.

- **The iterator.** Python's list iterator keeps an index, so the pipe right after a removed one is skipped for that frame.
- **`SweepFrom`.** The loop is modelled with exactly these index semantics. The class methods run the same indexed loop over the list of pipe objects.
- **`Walk`.** An independent description says this in terms of the original list.
- **Proofs.** `SweepIsWalk` proves the two descriptions agree. The loop's guarantees are proved on `Walk`.

### Inputs supplied as parameters

- **Random gap height.** It arrives inside the timer event, constrained to `random.randint`'s range.
- **The high-score file.** Its content at start-up is a `StoredText`: absent, an integer, or not an integer. Whether a write succeeds is the boolean `writeOk`.
- **Button hits.** Whether a click hit a button is carried by the mouse event.
- **Ground and clock.** `bird.is_on_ground()` and `pygame.time.get_ticks()` are the parameters `birdOnGround` and `now` (`Bird` has no `is_on_ground` method; see below).

### Where the code and its description differ (the model follows the code)

- **Ground death.** The component bird never kills itself by falling: `update` only clamps at the ceiling. The end-game branch at src/game/controller.py:87-88 can therefore only follow a pipe hit (`LiveBirdNeverDiesByUpdate`). A bird that falls to the ground without touching a pipe keeps the game running.
- **Skipped pipes.** Removing a pipe during the loop skips the next pipe for that frame.
  - That pipe is neither moved, scored nor collision-checked (`RemovalSkipsNext`).
  - The removed pipe itself is still scored and checked.
  - A spawned pipe leaves the list on its 101st update (`SpawnedPipeLeavesOnUpdate101`).
- **`is_new_high_score`.** The component game saves the high score on every frame the game is over, before `render`. So the game-over screen is never told it shows a new high score (`GameOverScreenNeverSeesNewHighScore`).
- **Failed writes.** A failed write still raises the in-memory best and is not retried.
- **The lower pipe.** Its rectangle is `WINDOW_HEIGHT` (740) tall, reaching below the window.
- **Space in the menu** starts the component game as well as making the bird jump.
- **Legacy start-up.** The legacy program catches only a missing file. A file that does not hold an integer stops it (`LoadHighScore` returns `None`).
- **Legacy high score.** `game_over` writes the score to the file when it beats `high_score`, but never assigns `high_score` (bird.py:117-120). The model does the same: the in-memory best stays the loaded value for the whole session, and every later game is compared with it (`RunKeepsLoadedBest`; see Findings).
- **Legacy game over.** In a reachable legacy state the game-over flag is down at the start of every frame, because the frame that raises it ends in `main_menu`. So the Space branch of bird.py:171 that opens the menu never fires (`SpaceNeverOpensMenu`).

## Model

| member | source | states |
|---|---|---|
| Pipes.Scrolled | src/components/pipe.py:10-11 | a pipe moves left by exactly `PIPE_VELOCITY` and keeps its gap and its passed mark |
| Pipes.GapIsExact | src/components/pipe.py:17-18 | the upper rectangle runs from the top to the gap height, the lower one starts exactly `PIPE_GAP` below it and is `WINDOW_HEIGHT` tall, both `PIPE_WIDTH` wide at the pipe's x |
| Pipes.ScrolledTimesClosedForm | src/components/pipe.py:10-11 | after k updates a pipe is 8k to the left, nothing else changed |
| Pipes.SpawnedPipeLeavesOnUpdate101 | src/game/controller.py:93-97 | a pipe spawned at the right edge is off screen (`x + PIPE_WIDTH < 0`) exactly from its 101st update on |
| Pipes.Pipe.constructor | src/components/pipe.py:5-8 | a new pipe is at x with its gap and not passed |
| Pipes.Pipe.Update | src/components/pipe.py:10-11 | the object's new state is `Scrolled` of its old one |
| Pipes.Pipe.GetRect | src/components/pipe.py:17-18 | the two rectangles share x and width, the upper starts at 0 and ends at the gap height, the lower starts `PIPE_GAP` lower and is `WINDOW_HEIGHT` tall |
| Pipes.Views | src/game/controller.py:19 | the list of pipe objects seen as values, element by element |
| PipeSweep.Visit | src/game/controller.py:93-160 | one turn of the loop: the pipe moves one step; a point is added exactly when it was not passed and is now behind the bird, and it is marked passed; a hit is recorded exactly when hits are checked and the bird overlaps a rectangle |
| PipeSweep.SweepStep | src/game/controller.py:92-97 | one turn of the index loop, removal or not, leaves what the rest of the loop computes unchanged |
| PipeSweep.SweepIsWalk | src/game/controller.py:92-97 | the index semantics of `for pipe in pipes` with `pipes.remove` agree with the description on the original list |
| PipeSweep.SweepMatchesWalk | src/game/controller.py:92-97 | the whole pass equals the reference description from an empty tally |
| PipeSweep.WalkAfterRemoval | src/game/controller.py:96-97 | after a removal the next pipe is passed through untouched |
| PipeSweep.RemovalSkipsNext | bird.py:184-187 | in the index loop, the pipe after a removed one is neither moved, scored nor checked that frame, and the loop goes on after it |
| PipeSweep.WalkWithoutRemoval | src/game/controller.py:92-97 | when no pipe leaves the screen every pipe is moved exactly once and stays in place |
| PipeSweep.WalkKeepsOrder | src/game/controller.py:92-97 | the surviving pipes keep spawn order, each continuing one input pipe (same gap, moved at most one step, passed stays passed) |
| PipeSweep.WalkScoresEachPipeOnce | src/game/controller.py:99-103 | points scored plus unscored pipes afterwards never exceed the unscored pipes before: no pipe scores twice |
| PipeSweep.WalkTallyMonotone | src/game/controller.py:99-160 | points and the hit flag only accumulate, and nothing is hit when hits are not checked |
| PipeSweep.WalkKeepsGaps | src/game/controller.py:230-233 | the pass keeps every gap in the range of the random draw |
| PipeSweep.SweepFacts | src/game/controller.py:91-160 | the pass keeps order, scores each pipe at most once, hits nothing when not checking, keeps gaps valid |
| PipeSweep.SweepFrom | src/game/controller.py:92-160 | definition: the `for pipe in pipes:` loop with the list iterator's index semantics, from index i; its properties are `SweepStep`, `SweepIsWalk` and `SweepFacts` |
| PipeSweep.Sweep | src/game/controller.py:92-160 | definition: the whole loop from index 0 and an empty tally |
| PipeSweep.Walk | src/game/controller.py:92-160 | definition: the reference description of the loop on the original list, a removed pipe's successor kept unvisited; `SweepIsWalk` connects it to `SweepFrom` |
| Geometry.Collides | src/game/controller.py:111 | definition: strict overlap of two rectangles, standing for `colliderect` (also lines 137 and bird.py:197) |
| PipeSweep.RemoveFirst | src/game/controller.py:97 | `list.remove` of a member (Python raises `ValueError` otherwise, so membership is required) shortens the list by one and removes exactly one copy of that element |
| PipeSweep.RemoveFirstAt | src/game/controller.py:97 | in a list without duplicates, removing element i leaves exactly the elements before and after it |
| Birds.Stepped | src/components/bird.py:19-48 | live bird: velocity rises by gravity, y moves by it and is clamped at the ceiling with velocity zeroed, tilt moves by at most 0.5, upward while the new velocity is negative and downward otherwise, and stays within ±25, the animation tick counts modulo 5; dead bird: drop velocity rises, tilt is 90, a bird at or below the ground line sits on it with drop velocity 0 |
| Birds.Jumped | src/components/bird.py:50-53 | a live bird gets velocity -12 and tilt -25, nothing else; a dead bird is unchanged |
| Birds.AfterReset | src/components/bird.py:55-60 | the bird is back at y 370, at rest, untilted, alive, with x and the animation tick kept |
| Birds.InRangeKept | src/components/bird.py:19-60 | update, jump and reset keep the bird in range: x stays 50, the animation tick stays in 0..4, and a live bird's tilt stays within ±25 and its y never goes above the ceiling |
| Birds.Bird.constructor | src/components/bird.py:5-17 | the initial bird |
| Birds.Bird.Update | src/components/bird.py:19-48 | the object's new state is `Stepped` of its old one |
| Birds.Bird.Jump | src/components/bird.py:50-53 | the object's new state is `Jumped` of its old one |
| Birds.Bird.ResetPosition | src/components/bird.py:55-60 | the object's new state is `AfterReset` of its old one |
| Birds.Bird.GetRect | src/components/bird.py:67-68 | the hitbox sits at the bird's position with the bird's size |
| GameStates.Started | src/game/state.py:8-11 | started, not over, not falling |
| GameStates.Ended | src/game/state.py:13-15 | over and falling, started unchanged |
| GameStates.Grounded | src/game/state.py:17-18 | not falling, the other two unchanged |
| GameStates.Cleared | src/game/state.py:20-23 | all three flags down |
| GameStates.ApplyKeepsConsistent | src/game/state.py:8-23 | from a consistent state (falling only when over) every operation leaves a consistent state |
| GameStates.ConsistentAfterAnyOps | src/game/state.py:8-23 | any sequence of operations from a consistent state (such as the constructor's) stays consistent |
| GameStates.ApplyIdempotent | src/game/state.py:8-23 | each operation applied twice is the same as once |
| GameStates.GameState.constructor | src/game/state.py:2-6 | all flags down |
| GameStates.GameState.StartGame | src/game/state.py:8-11 | the object's new flags are `Started` of the old |
| GameStates.GameState.EndGame | src/game/state.py:13-15 | the object's new flags are `Ended` of the old |
| GameStates.GameState.BirdHitGround | src/game/state.py:17-18 | the object's new flags are `Grounded` of the old |
| GameStates.GameState.Reset | src/game/state.py:20-23 | the object's new flags are `Cleared` of the old |
| Scores.LoadHighScore | src/game/score.py:13-18 | an integer file gives its value; a missing or non-integer file gives 0 |
| Scores.Incremented | src/game/score.py:7-8 | the score rises by one, the best is kept |
| Scores.Zeroed | src/game/score.py:10-11 | the score is 0, the best is kept |
| Scores.Saved | src/game/score.py:20-29 | a score that beats the best becomes the best and the result is whether the write succeeded; otherwise nothing changes and the result is false; afterwards the score never beats the best |
| Scores.SaveAgainIsNoOp | src/game/score.py:20-29 | saving twice changes nothing the second time and reports false |
| Scores.HighScoreNeverDecreases | src/game/score.py:7-29 | no sequence of increments, resets and saves lowers the best |
| Scores.ScoreManager.constructor | src/game/score.py:2-5 | score 0, best loaded from the file |
| Scores.ScoreManager.Increment | src/game/score.py:7-8 | the new state is `Incremented` of the old |
| Scores.ScoreManager.Reset | src/game/score.py:10-11 | the new state is `Zeroed` of the old |
| Scores.ScoreManager.SaveHighScore | src/game/score.py:20-29 | new state and result are `Saved` of the old state and the write's outcome |
| Scores.ScoreManager.IsNewHighScore | src/game/score.py:31-32 | true exactly when the score beats the best |
| DeathScreen.Advanced | src/game/ui.py:116-124 | off the ground nothing changes; on it the alpha rises by 5 below 255 and stays put at 255, and the screen shows exactly when it already did or the alpha is past 128; the latch is never cleared |
| DeathScreen.AdvancedKeepsInvariant | src/game/ui.py:116-124 | alpha stays a multiple of 5 in [0, 255] and the screen shows exactly when alpha is past 128 |
| DeathScreen.FadeAfterClosedForm | src/game/ui.py:116-128 | after n calls on the ground from a reset, the alpha is min(5n, 255) and the screen shows from the 26th call |
| DeathScreen.OverlayAlpha | src/game/ui.py:66 | the overlay is never darker than 180 nor than the fade |
| DeathScreen.Ui.constructor | src/game/ui.py:48-49 | alpha 0, screen hidden |
| DeathScreen.Ui.UpdateDeathAnimation | src/game/ui.py:116-124 | the new fade is `Advanced` of the old |
| DeathScreen.Ui.ResetDeathAnimation | src/game/ui.py:126-128 | alpha 0, screen hidden |
| ControllerModel.AfterEvent | src/game/controller.py:43-74 | definition: one event of `handle_events`, with the early return as `Next`; its properties are `OnlyQuitStops`, `ResetOnlyFromDeathScreen`, `SpaceStartsAndJumps`, `SpawnOnlyWhilePlaying` and `AfterEventKeepsInv` |
| ControllerModel.AfterEvents | src/game/controller.py:42-76 | definition: the queue up to the first early return, and the value returned |
| ControllerModel.BirdPhase | src/game/controller.py:83-88 | definition: the bird's update once the game has started, ending the game on a dead bird; see `LiveBirdNeverDiesByUpdate` |
| ControllerModel.PipePhase | src/game/controller.py:90-160 | definition: the pipe loop while the game is not over, hits checked only in a running game; see `PipePhaseFacts` and `FrozenWhileOver` |
| ControllerModel.GroundPhase | src/game/controller.py:162-179 | definition: on the ground a falling bird lands and records the death time, and the fade advances after the delay |
| ControllerModel.SavePhase | src/game/controller.py:182-183 | definition: the high score is saved on every frame the game is over; see `GameOverScreenNeverSeesNewHighScore` |
| ControllerModel.BackgroundPhase | src/game/controller.py:185-189 | definition: the background scrolls by one and wraps while the game is not over |
| ControllerModel.Updated | src/game/controller.py:78-189 | definition: `update` as the composition of the five phases; see `UpdateKeepsInv` |
| ControllerModel.Frame | src/game/controller.py:250-252 | definition: `handle_events` then `update`; see `FrameKeepsInv` |
| ControllerModel.InitialWorldInv | src/game/controller.py:12-40 | the freshly built game satisfies the game invariant |
| ControllerModel.WithPipe | src/game/controller.py:230-233 | a new unpassed pipe at the right edge is appended and nothing else changes |
| ControllerModel.Restarted | src/game/controller.py:235-246 | a restart is a started game with score 0 and the best kept, no pipes, a reset bird, a cleared fade and death time 0 |
| ControllerModel.OnlyQuitStops | src/game/controller.py:42-76 | `handle_events` returns false exactly on a quit |
| ControllerModel.ResetOnlyFromDeathScreen | src/game/controller.py:53-71 | R, Restart and Main Menu return early exactly while the game-over screen shows; R and Restart restart, Main Menu restarts and clears every flag |
| ControllerModel.SpaceStartsAndJumps | src/game/controller.py:47-51 | Space starts the game only from the menu, always passes the jump to the bird, and changes nothing else |
| ControllerModel.SpawnOnlyWhilePlaying | src/game/controller.py:73-74 | a pipe is added, at the end, exactly on a timer event while the game runs |
| ControllerModel.AfterEventKeepsInv | src/game/controller.py:42-76 | every event keeps the invariant and the best score |
| ControllerModel.AfterEventsKeepsInv | src/game/controller.py:42-76 | so does a whole frame's queue, up to an early return |
| ControllerModel.LiveBirdNeverDiesByUpdate | src/game/controller.py:83-88 | in a reachable state a live bird's own update never kills it, so that branch never ends the game |
| ControllerModel.PipePhaseFacts | src/game/controller.py:90-160 | the pipe pass keeps order, scores each pipe at most once, keeps the best, changes no flag before the game starts, keeps gaps valid |
| ControllerModel.UpdateKeepsInv | src/game/controller.py:78-189 | `update` keeps the game invariant: consistent flags, over implies started, dead implies over, the bird in range, the fade invariant, the background in (-720, 0], valid gaps |
| ControllerModel.FrozenWhileOver | src/game/controller.py:90-91 | while the game is over no pipe moves, no point is scored and the background stops |
| ControllerModel.DeadBirdEndsGame | src/game/controller.py:86-88 | a started game whose bird is dead after `update` is over |
| ControllerModel.UpdateScoring | src/game/controller.py:99-103 | each point of a frame comes from an unscored pipe, and the best never drops |
| ControllerModel.GameOverScreenNeverSeesNewHighScore | src/game/controller.py:182-183 | after `update` a game that is over never has a score beating the best, so `render` passes false to the game-over screen |
| ControllerModel.HitEndsGameThisFrame | src/game/controller.py:105-139 | a hit in a running game kills the bird and ends the game in that frame |
| ControllerModel.FrameKeepsInv | src/game/controller.py:248-253 | one iteration of `run` keeps the invariant and never lowers the best |
| Controller.GameController.constructor | src/game/controller.py:12-40 | the new controller is the initial world and valid |
| Controller.GameController.SpawnPipe | src/game/controller.py:230-233 | one fresh pipe appended, the rest of the list untouched |
| Controller.GameController.ResetGame | src/game/controller.py:235-246 | the new state is `Restarted` of the old, with an empty pipe list |
| Controller.GameController.HandleEvent | src/game/controller.py:43-74 | one event takes the objects to `AfterEvent` of the old state, keeping validity |
| Controller.GameController.HandleEvents | src/game/controller.py:42-76 | the queue takes the objects to `AfterEvents`, stopping at the first early return |
| Controller.GameController.DropPipe | src/game/controller.py:96-97 | the pipe object is removed from its place, nothing else in the state changes |
| Controller.GameController.ScorePipe | src/game/controller.py:99-103 | a pipe behind the bird and not passed is marked and scores one point |
| Controller.GameController.CheckCollision | src/game/controller.py:105-160 | in a running game, overlap with either rectangle ends the game and kills the bird |
| Controller.GameController.AdvancePipe | src/game/controller.py:93-97 | the pipe moves and leaves the list exactly when off screen |
| Controller.GameController.ScoreAndCheck | src/game/controller.py:99-160 | scoring and collision for the moved pipe, as `Visit` says |
| Controller.GameController.VisitAt | src/game/controller.py:92-160 | one turn of the loop advances the state as `SweepFrom` does |
| Controller.GameController.SweepPipes | src/game/controller.py:92-160 | the loop over the pipe objects computes `Sweep` of the pipes' values |
| Controller.GameController.UpdatePipes | src/game/controller.py:91-160 | the new state is the model's pipe phase |
| Controller.GameController.UpdateBird | src/game/controller.py:83-88 | the new state is the model's bird phase |
| Controller.GameController.UpdateGround | src/game/controller.py:163-179 | the new state is the model's ground phase |
| Controller.GameController.SaveIfOver | src/game/controller.py:182-183 | the new state is the model's save phase |
| Controller.GameController.ScrollBackground | src/game/controller.py:186-189 | the new state is the model's background phase |
| Controller.GameController.Update | src/game/controller.py:78-189 | `update` takes the objects to `Updated` of the old state and keeps validity |
| Controller.GameController.RunOnce | src/game/controller.py:250-252 | one iteration of `run`'s loop is `Frame` of the old state |
| Legacy.Fallen | bird.py:54-56 | velocity rises by 0.9 and y moves by the new velocity, with no clamp |
| Legacy.Jumped | bird.py:58-59 | velocity -12, whatever the state, nothing else |
| Legacy.Rested | bird.py:61-63 | back at y 370 at rest |
| Legacy.FallenTimesClosedForm | bird.py:54-56 | after k updates the velocity is v + 0.9k and y is y0 + vk + 0.9·k(k+1)/2 |
| Legacy.OneJumpHeight | bird.py:54-59 | after one jump from the start and k updates the bird is on the ground exactly when k(9k - 231) >= 4600 |
| Legacy.OneJumpReachesGroundOnUpdate39 | bird.py:201-202 | a bird that jumps once from the start reaches the ground on its 39th update and not before |
| Legacy.LoadHighScore | bird.py:128-135 | a missing file gives 0, an integer its value, anything else stops the program |
| Legacy.MainMenu | bird.py:86-96 | both flags down, score 0, no pipes, the bird reset, the best and the background kept |
| Legacy.InitialWorldInv | bird.py:138-160 | the start-up state satisfies the invariant |
| Legacy.AfterEvent | bird.py:162-178 | the program exits exactly on a quit; no event changes the best or the background |
| Legacy.AfterEvents | bird.py:162-178 | the queue exits exactly when it holds a quit; the best and the background are kept |
| Legacy.SpaceNeverOpensMenu | bird.py:167-173 | in a reachable state Space only starts the game and jumps |
| Legacy.SpawnOnlyWhileRunning | bird.py:175-178 | a pipe is added, at the end, exactly on a timer event of a running game |
| Legacy.AfterEventKeepsInv | bird.py:162-178 | every event keeps the invariant, the scores and the background |
| Legacy.AfterEventsKeepsInv | bird.py:162-178 | so does a frame's queue, up to a quit |
| Legacy.BirdPhase | bird.py:181-182 | definition: the bird falls once the game has started |
| Legacy.PipePhase | bird.py:184-198 | definition: the pipe loop with collisions always checked, a hit raising the game-over flag |
| Legacy.GroundPhase | bird.py:201-202 | definition: a bird at the ground line raises the game-over flag |
| Legacy.BackgroundPhase | bird.py:205 | definition: the background always scrolls by one and wraps at the window width (lines 212-213) |
| Legacy.Written | bird.py:117-120 | the file is written exactly when the score beats the best, with the score |
| Legacy.Played | bird.py:180-213 | the loop body before `game_over` keeps the best and the start flag and never lowers the score |
| Legacy.EndPhase | bird.py:235-240 | afterwards the game-over flag is down and the best is unchanged; a score is written exactly when the game is over and its score beats the best, and it is that score |
| Legacy.Updated | bird.py:180-240 | the loop body after the events keeps the best |
| Legacy.Frame | bird.py:161-244 | one pass of `while True` keeps the best and exits exactly when the queue holds a quit |
| Legacy.UpdatedFacts | bird.py:180-240 | after a frame the game-over flag is down and the best is the loaded one; an ended game (pipe or ground) or a menu frame is back at the menu; a running game is still running; the file is written exactly when an ended game beat the best, with its score |
| Legacy.UpdatedKeepsInv | bird.py:180-240 | the loop body keeps the invariant |
| Legacy.FrameKeepsInv | bird.py:161-244 | one pass of `while True` keeps the invariant and leaves the best as it was |
| Legacy.Run | bird.py:161-244 | definition of a session of frames, with the scores written; the best at its end is the one it started with |
| Legacy.EndedScore | bird.py:235-236 | definition: the score of the game that ends in a frame, if one does |
| Legacy.Finals | bird.py:161-244 | definition: the final scores of the games that end along a session |
| Legacy.WrittenAsCoded | bird.py:117-120 | definition: the scores written for a list of final scores, each compared with the loaded best |
| Legacy.RunWritesAsCoded | bird.py:161-244 | a session writes exactly `WrittenAsCoded` of the loaded best and its final scores |
| Legacy.AsCodedBeatsLoaded | bird.py:117-120 | every score `WrittenAsCoded` gives beats the loaded best |
| Legacy.RunKeepsLoadedBest | bird.py:117-120 | over any session the best is never reassigned, and every score written beats the loaded best (but need not beat the ones written before) |
| Legacy.LowerScoreOverwritesBest | bird.py:117-120 | as coded, loading 5 and ending games with 10 then 7 writes 10 and then 7 |
| Legacy.LowerScoreOverwritesBestOnRun | bird.py:117-120 | any session that loads 5 and ends games with 10 then 7 writes 10 and then 7 as coded, and only 10 when the best is raised |
| Legacy.WrittenKeepingBest | bird.py:117-120 | definition: the scores written when the best is raised at each write |
| Legacy.KeepingBestOnlyImproves | bird.py:117-120 | with the best raised at each write, the written scores strictly increase and each beats the loaded best |
| Legacy.KeepingBestEndsWithBest | bird.py:117-120 | with the best raised, a session where some game beats the loaded best ends with a written score at least that game's |
| Legacy.EndPhaseKeepingBest | bird.py:117-120 | the corrected game over: the same state and written score as `EndPhase`, except that the best becomes the score written, so it never drops |
| Legacy.FrameKeepingBest | bird.py:161-244 | definition: a frame of the corrected program |
| Legacy.RunKeepingBest | bird.py:161-244 | definition: a session of the corrected program |
| Legacy.EventsIgnoreBest | bird.py:162-178 | events never read the best: changing it before the queue changes nothing else after it |
| Legacy.RunKeepingBestWrites | bird.py:161-244 | the corrected program, from any best, plays the same games and writes `WrittenKeepingBest` of their final scores |
| Legacy.RunKeepingBestOnlyImproves | bird.py:117-120 | in the corrected program the scores written over any session strictly increase and each beats the loaded best |
| Legacy.Bird.constructor | bird.py:48-52 | the initial legacy bird |
| Legacy.Bird.Update | bird.py:54-56 | the new state is `Fallen` of the old |
| Legacy.Bird.Jump | bird.py:58-59 | the new state is `Jumped` of the old |
| Legacy.Bird.ResetPosition | bird.py:61-63 | the new state is `Rested` of the old |
| Legacy.Game.constructor | bird.py:128-160 | a loadable file gives the start-up state, which is valid |
| Legacy.Game.OpenMenu | bird.py:86-96 | the new state is `MainMenu` of the old, with no pipe objects |
| Legacy.Game.SpawnPipe | bird.py:175-178 | one fresh pipe appended, the rest untouched |
| Legacy.Game.PressSpace | bird.py:167-173 | the new state is the model's Space event |
| Legacy.Game.HandleEvent | bird.py:162-178 | one event takes the state to `AfterEvent` of the old one, keeping validity |
| Legacy.Game.HandleEvents | bird.py:162-178 | the queue takes the state to `AfterEvents`, stopping at a quit |
| Legacy.Game.AdvancePipe | bird.py:185-187 | the pipe moves and leaves the list exactly when off screen |
| Legacy.Game.ScoreAndCheck | bird.py:189-198 | scoring and collision for the moved pipe, as `Visit` says with hits always checked |
| Legacy.Game.VisitAt | bird.py:184-198 | one turn of the loop advances the state as `SweepFrom` does |
| Legacy.Game.SweepPipes | bird.py:184-198 | the loop over the pipe objects computes `Sweep` of the pipes' values with collisions always checked |
| Legacy.Game.UpdatePipes | bird.py:184-198 | the new state is the model's pipe phase |
| Legacy.Game.UpdateBird | bird.py:181-182 | the new state is the model's bird phase |
| Legacy.Game.UpdateGround | bird.py:201-202 | the new state is the model's ground phase |
| Legacy.Game.ScrollBackground | bird.py:205-213 | the new state is the model's background phase |
| Legacy.Game.EndFrame | bird.py:235-240 | the new state and the written score are `EndPhase` of the old: the flag is down, the best is untouched, and the pipe objects are kept or all dropped |
| Legacy.Game.Update | bird.py:180-240 | the loop body after the events is `Updated` of the old state, keeping validity and the best |
| Legacy.Game.RunFrame | bird.py:161-240 | one pass of `while True` is `Frame` of the old state, keeping the best and, unless it exits, validity |

## Left out

- Drawing is not modelled: `draw` methods, `render`, the menu and game-over texts, fonts, images, `pygame.display`, the clock and the frame rate.
- Particles (`ParticleManager`, `collision_point`, `has_added_*` flags) are left out. They never influence the simulated state.
- `pygame.time.wait(2000)` in the legacy `game_over` is left out. It only pauses.
- `Bird.is_on_ground` is not modelled, because `Bird` does not define it: `update` would raise there. The model takes its result as the parameter `birdOnGround` instead.
- `random.randint` becomes an input: the gap height is a field of the timer event, required to lie in the draw's range.
- Button hit tests become inputs: `Button` and the mouse position are not modelled, and the mouse event says which buttons were hit.
- The file the high score is written to is not modelled. Its start-up content is a parameter, and a component write succeeds or fails through `writeOk`. The legacy write is the `written` score beside the state.
- Floating point is modelled as exact `real` arithmetic, without IEEE rounding.
- `pygame.Rect` truncates coordinates to integers, and the model does not. Overlap is modelled as strict overlap of the exact rectangles.
- The quit is only the returned flag: `pygame.quit()` and `sys.exit()` are not modelled.
- The bird's `image` and `draw` are not modelled.
- The legacy `Pipe` class (bird.py:69-83) has the same code as the component one, so `Pipes.Pipe` models both.

## Findings

| source | as written | input that shows it | evidently intended | confidence | as-written member | corrected member |
|---|---|---|---|---|---|---|
| bird.py:117-120 | `game_over` writes `score` to the file when it beats `high_score`, but never assigns `high_score`; later games in the session compare against the start-up value | file holds 5; games end with 10, then 7: the file receives 10, then 7, so the best 10 is lost | raise `high_score` with the write, so the file only improves | not executed | Legacy.LowerScoreOverwritesBestOnRun | Legacy.RunKeepingBestOnlyImproves |
