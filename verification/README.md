# Line98 game manager — a Dafny model

This project models the turn and bookkeeping engine of a Line98-style puzzle
game's `GameManager`, and the `GameplayConfig` tunables it reads. The manager
keeps:

- a FIFO queue of upcoming palette indices;
- the current score and the high score, both C# `uint`;
- a duplicate-free stack of explode keys (board positions);
- a counter of ghost balls, capped by `GhostCount`;
- an input-blocking latch, and the selected and target nodes of the current move.

Each operation of the manager is a pure function from a `GameState` to a new
`GameState` (`manager.dfy`). The manager's collaborators are not modelled:

- their answers are parameters. The board's `OutOfActiveNode` answers come in as a sequence of booleans. The state of the moved ball's source node comes in as a `NodeView`.
- the requests made of them are returned, in order, as a sequence of `Effect`s (`board.dfy`).

Random values are parameters too:

- a color draw is any natural number, reduced into the range Unity's `Random.Range(0, Length - 1)` yields;
- a ghost roll is a whole number in 0..99.

A C# exception (`Dequeue` on an empty queue, an array index past its end, a
`null` dereference) becomes a `Failure` carrying a `Fault`.

Files:

- `common.dfy`: the `uint32` newtype with wrap-around addition, `Option`/`Result`, duplicate-free sequences.
- `config.dfy`: `GameplayConfig` with its defaults; `QueuedCount` carries its 1..6 range as a subset type, and the palette of `ColorID`s is non-empty. The source's accessors return their backing fields, which here are the datatype's fields.
- `board.dfy`: positions, node views and the `Effect` requests.
- `manager.dfy`: the state and its transitions.
- `properties.dfy`: lemmas that relate several calls.

Behaviours of the code that the model keeps as written:

- `Score` stops only when the score *equals* `MaxScore` (GameManager.cs:215), and its addition is an unchecked `uint` addition (GameManager.cs:218). With a `MaxScore` that is a multiple of `ScorePerExploded`, as the defaults are, the score stops there (`ScoreStopsAtMax`). Otherwise it steps over the ceiling (`ScoreCanOvershoot`) and eventually wraps.
- `currentGhostCount` is raised only by `IsGhost` (GameManager.cs:272) and is never reset, neither by `NewGame` (GameManager.cs:71-78) nor by `GameOver` (GameManager.cs:80-90). So the ghost cap holds per run of the application (`NewGameKeepsGhostCount`).
- `SetHighScore` assigns the current score to the high score (GameManager.cs:224), so game over and quitting overwrite it even with a lower score (`HighScoreIsOverwritten`).
- Explode keys are cleared only by `ClearExplodeKeys` (GameManager.cs:282); `CheckExplode` (GameManager.cs:257-263) leaves them in place.

## Model

| member | source | states |
|---|---|---|
| Config.Default | Assets/_Scripts/Config/GameplayConfig.cs:8-15 | the default tunables have a positive `ScorePerExploded` dividing `MaxScore`, which the score lemmas use to show the score stops exactly at `MaxScore` |
| Common.AddWrap | Assets/_Scripts/System/GameManager.cs:218 | `uint` addition: the exact sum below 2^32, the sum less 2^32 at or above it |
| Manager.GetRandomColorIndex | Assets/_Scripts/System/GameManager.cs:176 | a draw always indexes the palette, and with two or more entries it never yields the last one (max-exclusive range) |
| Properties.DrawReachesEveryIndex | Assets/_Scripts/System/GameManager.cs:176 | every index below `Length - 1` (or 0 for a single entry) can be drawn |
| Manager.GetRandomColorConfig | Assets/_Scripts/System/GameManager.cs:201 | the drawn color is in the palette, and outside its last entry when there are several |
| Manager.RandomColorIndices | Assets/_Scripts/System/GameManager.cs:131-134 | `n` draws give `n` valid palette indices, none the last when the palette has several |
| Manager.GetSprite | Assets/_Scripts/System/GameManager.cs:203-211 | returns the first entry with the color, or nothing exactly when no entry has it |
| Manager.FillQueue | Assets/_Scripts/System/GameManager.cs:167-173 | the refill loop ends with `max(old length, count)` entries, the old ones first and in order, then one drawn index per draw in draw order |
| Manager.MakeNewColorIndexQueue | Assets/_Scripts/System/GameManager.cs:165-174 | the queue is topped up to `QueuedCount` (a longer queue is kept), its old entries stay at the front, the new ones are valid indices other than the last, and nothing else changes |
| Properties.FillQueueIsBatchDraw | Assets/_Scripts/System/GameManager.cs:165-174 | the one-at-a-time refill equals appending the missing entries drawn in one batch |
| Manager.AttachLoop | Assets/_Scripts/System/GameManager.cs:146-162 | dequeues a FIFO prefix, stops at the first "out of active node" answer (game over exactly when one of the `count + 1` answers says so), and otherwise dequeues exactly `count`; faults only on a too-short queue or a non-palette index |
| Manager.AttachQueueBallsToBoard | Assets/_Scripts/System/GameManager.cs:143-163 | with `QueuedCount` valid entries it never faults; without game over it drops the first `QueuedCount` entries and attaches them in order; with game over it attaches the entries before the first "out" answer, then clears the board, records the high score, zeroes the score, empties the queue and blocks input |
| Manager.InitScoreboard | Assets/_Scripts/System/GameManager.cs:126-141 | appends exactly `QueuedCount` valid indices whatever the queue held, keeping the old entries in front |
| Manager.NewGame | Assets/_Scripts/System/GameManager.cs:71-78 | score 0, exactly `QueuedCount` valid queued indices, input open, one new-board request with `QueuedCount` and `InitGrowUpCount`; high score, ghost counter, keys and selection kept |
| Properties.NewGameQueueIsRefill | Assets/_Scripts/System/GameManager.cs:71-78 | a new game's queue is the refill of an empty queue |
| Properties.NewGameKeepsGhostCount | Assets/_Scripts/System/GameManager.cs:71-78 | a new game does not reset the ghost counter |
| Manager.ClearResources | Assets/_Scripts/System/GameManager.cs:114-118 | zeroes the score and empties the queue, nothing else; `NewGameQueueIsRefill` shows the new game's queue is then a refill from empty |
| Manager.Pause | Assets/_Scripts/System/GameManager.cs:100-105 | blocks input and changes nothing else; `PauseThenResume` composes it with `Resume` |
| Manager.Resume | Assets/_Scripts/System/GameManager.cs:107-112 | opens input and changes nothing else; `PauseThenResume` shows it undoes `Pause` |
| Manager.SetHighScore | Assets/_Scripts/System/GameManager.cs:222-226 | the high score becomes the current score and nothing else changes; `HighScoreIsOverwritten` shows a lower score replaces a higher one |
| Manager.Quit | Assets/_Scripts/System/GameManager.cs:92-98 | records the current score as the high score and changes nothing else; `HighScoreIsOverwritten` |
| Manager.CheckExplode | Assets/_Scripts/System/GameManager.cs:257-263 | fires exactly when the stack holds at least `ExplodeCount` keys, and then hands the board the whole stack; `ExplodeFiresOnDistinctCount` ties this to the distinct keys added |
| Manager.ClearExplodeKeys | Assets/_Scripts/System/GameManager.cs:282 | empties the explode keys and nothing else; `ClearedKeysDoNotExplode` shows `CheckExplode` then stays quiet |
| Properties.NegativeChanceNeverGhost | Assets/_Scripts/System/GameManager.cs:265-279 | a negative `GhostAppearChance` never yields a ghost and changes nothing |
| Properties.PauseThenResume | Assets/_Scripts/System/GameManager.cs:100-112 | pausing blocks input and resuming opens it, neither changes anything else, and pausing then resuming only leaves input open |
| Manager.GameOver | Assets/_Scripts/System/GameManager.cs:80-90 | input blocked, high score overwritten with the current score, score 0, queue empty, board cleared; nothing else changes |
| Properties.HighScoreIsOverwritten | Assets/_Scripts/System/GameManager.cs:222-226 | quitting and game over set the high score to the current score by assignment, so a lower score replaces a higher high score; quitting changes nothing else |
| Manager.Score | Assets/_Scripts/System/GameManager.cs:213-220 | a score equal to `MaxScore` stays; any other gains `ScorePerExploded` with `uint` wrap-around; nothing else changes |
| Properties.ScoreClimb | Assets/_Scripts/System/GameManager.cs:213-220 | from `j` steps below a ceiling of `m` steps, `n` calls give `min(score + n * step, MaxScore)` and change nothing else |
| Properties.ScoreStopsAtMax | Assets/_Scripts/System/GameManager.cs:213-220 | when `MaxScore` and the score are multiples of `ScorePerExploded`, `n` calls give `min(score + n * step, MaxScore)`: the score reaches `MaxScore` exactly and stays |
| Properties.DefaultScoreReachesMax | Assets/_Scripts/Config/GameplayConfig.cs:9-13 | with the defaults, `n` calls from 0 give `min(n, 99999)` |
| Properties.ScoreCanOvershoot | Assets/_Scripts/System/GameManager.cs:215 | the equality test lets a score pass a `MaxScore` that is not a multiple of the step |
| Manager.AddExplodeKey | Assets/_Scripts/System/GameManager.cs:251-255 | the key is present afterwards, the key set grows by exactly that key, a present key changes nothing, the length grows by one exactly for a new key, and no duplicate appears |
| Properties.AddExplodeKeysDistinct | Assets/_Scripts/System/GameManager.cs:251-255 | adding any keys keeps the stack duplicate-free, holding exactly the distinct keys, old and new |
| Properties.ExplodeFiresOnDistinctCount | Assets/_Scripts/System/GameManager.cs:251-263 | after a clear, a pass adding keys makes `CheckExplode` fire exactly when it saw at least `ExplodeCount` distinct keys, and then hand the board exactly those keys, each once; otherwise nothing is requested |
| Properties.ClearedKeysDoNotExplode | Assets/_Scripts/System/GameManager.cs:257-282 | `ClearExplodeKeys` empties the keys and nothing else; afterwards `CheckExplode` fires only for an `ExplodeCount` of zero, never with the defaults |
| Manager.IsGhost | Assets/_Scripts/System/GameManager.cs:265-279 | says yes exactly when below the cap and the roll is within the chance; the counter rises by one exactly on a yes; it stays within the cap; at the cap it says no and changes nothing |
| Properties.GhostCapHolds | Assets/_Scripts/System/GameManager.cs:265-279 | over any rolls the counter equals the yeses added, never passes `GhostCount`, so at most `GhostCount` yeses occur |
| Manager.EmptySelectedNode | Assets/_Scripts/System/GameManager.cs:24 | the selected node is forgotten and nothing else changes; `MoveThenGrowReleasesLatch` shows a landing ends with no selection |
| Manager.EmptyTargetNode | Assets/_Scripts/System/GameManager.cs:25-29 | the target node is forgotten and nothing else changes; `MoveThenGrowReleasesLatch` shows a landing ends with no target |
| Manager.MoveToTarget | Assets/_Scripts/System/GameManager.cs:178-186 | faults exactly when there is no selected node or that node holds no ball when its sprite is read; otherwise it blocks input and requests, in order, the release and reset of the source node and the ball's move with that ball's color; no other field changes |
| Manager.GrowTarget | Assets/_Scripts/System/GameManager.cs:188-199 | faults exactly on a missing target, source or source ball; otherwise the target grows the source ball's color, turns ghost exactly when the source node is a ghost, is checked for explosion last, and input opens with both selections cleared |
| Properties.MoveThenGrowReleasesLatch | Assets/_Scripts/System/GameManager.cs:178-199 | a move blocks input and its landing reopens it, clears both selections and carries the ghost tag |
| Manager.EndTurn | Assets/_Scripts/System/GameManager.cs:228-234 | without a selection, or without a ball on the selected node, it faults; with both and a full valid queue it succeeds; afterwards input is blocked, the queue holds at least `QueuedCount` entries, and the requests begin with the move's three and then the growth of the queued balls |
| Properties.EndTurnRefillsQueue | Assets/_Scripts/System/GameManager.cs:228-234 | a turn from a full valid queue, with a ball on the selected node, ends with a full valid queue; without game over the scores are unchanged and the queue is all new draws; with game over the score moved to the high score |
| Manager.PopulateSaveData | Assets/_Scripts/System/GameManager.cs:286-297 | the scores are written, the queue is appended to the saved list in FIFO order, and the live queue is left empty |
| Manager.LoadFromSaveData | Assets/_Scripts/System/GameManager.cs:299-325 | faults exactly on a non-empty saved queue with a non-palette index or fewer than `QueuedCount` entries; otherwise restores both scores; a non-empty saved queue is restored as is; an empty one starts a new game with a full queue |
| Properties.SaveLoadRoundTrip | Assets/_Scripts/System/GameManager.cs:286-325 | saving into an empty snapshot and loading it back restores the whole state |
| Properties.SaveLoadEmptyQueueStartsAgain | Assets/_Scripts/System/GameManager.cs:299-325 | an empty saved queue restarts the game but keeps the saved scores |
| Properties.SaveAppendsToExistingList | Assets/_Scripts/System/GameManager.cs:292-295 | saving after earlier entries restores those entries followed by the live queue |

## Left out

- Unity lifecycle (`Awake`, `Start`, `Update`), the `Timer` and the saved play time: clock and engine plumbing.
- Panels, UI text and queue images (`UIManager`): presentation. The one exception is the fault described next.
- `UIManager.InitNextQueueBall` (Assets/_Scripts/System/UIManager.cs:32-37) reads one sprite per queued ball. So loading a non-empty saved queue shorter than `QueuedCount` raises an index error. `LoadFromSaveData` models this as a fault.
- `FindPath`: it stores and draws the path search's waypoints, which only the moving ball uses. Setting `SelectedNode` and `TargetNode` is done by callers outside the manager (input handling), so the model takes them as given state; `EmptySelectedNode` and `EmptyTargetNode` are modelled, and `GrowTarget` uses them.
- `Initial`: the source's queue and key stack are `null` before a game starts; the model starts them empty.
- `SaveSystem` JSON persistence and `Application.Quit`. So `GameOver` and `Quit` do not save, and the board's share of the snapshot is a `SaveBoard`/`LoadBoard` request.
- `BoardManager`, `Pathfinding`, `TileNode`, `MovingBall`, `Singleton`: collaborators whose source is not part of this model. Their answers are parameters and their calls are `Effect`s. What `CheckChainExplode` later does with the explode keys and the score is theirs.
- `GetSprite`: returns the index of the matching palette entry in place of its opaque sprite.
- `Vector2` keys are modelled as whole-number pairs.
- `GhostAppearChance` is a float in the source. It is modelled as its floor, a whole number that may be negative: a whole roll is at most a float exactly when it is at most the float's floor, so every finite chance decides every roll in 0..99 as the float does. A NaN chance is not modelled.
- An empty `ballColorConfigs` array: the `Palette` type excludes it. With an empty array the source's first draw, `ballColorConfigs[rdmIndex]` (GameManager.cs:135) or `ballColorConfigs[newRandomColorIndex]` (GameManager.cs:172), indexes past the end and raises an index error; the model does not represent that configuration.
- Unity's random number generator: how it maps its state to a value is not modelled. A draw is any natural number reduced into the range the call asks for.
- A `Failure` carries no state. In the source, fields assigned before the exception keep their new values.
- `ClearResources`' fresh `Queue` object and the stack object identity: only their contents are modelled.

