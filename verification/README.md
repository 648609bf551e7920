# JellySlide core in Dafny

A model of the rules of the JellySlide puzzle game, written in Dafny with proofs about it. Jellies slide on a 6x6 grid until something stops them: the board edge, a hard wall (code 1), a cracker wall (code 4) or another living jelly. A jelly that runs into another one deals it one point of damage. The model covers these parts of the game:

- **`JellyMap`**: the map manager (`MapManager`).
  - The grid and the insertion-ordered store of jelly records.
  - `AddEntity`, `ApplyDamage`, `GetEntityAt` and `InitLevel`.
  - The slide resolver `CalculateSlide`. It is given an independent description of its outcome (`IsSlideOutcome`), and the proof shows the computed result is the only one that meets it.
- **`JellyProcedure`**: the demo turn procedure.
  - Swipe input.
  - One slide per turn.
  - The hit callback that runs when a move animation completes.
  - The move-complete handler that passes the turn.
  - The scripted enemy turn.
- **`Directions`**: the "dominant axis" rule. The swipe handler and the enemy AI both use it.
- **`EnemyAI`**: the enemy controllers.
  - The controller map.
  - The nearest-player search.
  - Moving towards a target, with a fixed order of fallback directions.
  - The Fisher-Yates shuffle and the random move.
  - One decision pass of an enemy's behaviour loop.
- **`LevelLoader`**: `ParseAndLoad`. It turns a parsed level file into a grid and spawns one record per marker cell.
- **`GameMain`**: the game state machine.
  - Loading a level with its fixed spawn layout.
  - The win/lose check after the enemy turn.
  - Reset, next level and restart.
- **`UIManager`**: the registry of panels and the stack of active panels.
- **`ReviveManager`**: the persisted revive counter and its daily top-up.
- **`TimeFormat`**, **`VictoryPanel`**, **`DefeatPanel`**:
  - the "mm:ss" clock text;
  - the victory score and star rating;
  - the defeat score and the failure-reason text.
- **`EffectsManager`**: the per-name FIFO pools of reusable effect objects.

Some inputs come from outside the modelled code, so the model takes them as parameters:

| input | how the model takes it |
|---|---|
| Whether a move animation exists (a visual entity for the mover) | `hasVisual` |
| The map's legality test for enemy moves | a function `canEnter` |
| The random draws | a sequence `rolls` |
| The map's win and lose checks | booleans |
| Today's date | a string |
| The settings store | a record of optional entries |

`CheckWinCondition`, `CheckLoseCondition`, `CanEntityMove`, `GetPlayerPositions` and `IsEntityActive` are not part of this model.

A few facts about the code shape the model:

- **Enemy AI ties.** The horizontal step is taken only when the horizontal distance is strictly larger (`Assets/GameMain/JellyGame/EnemyAI.cs:182`). On a tie the enemy steps vertically.
- **Adding an existing id.** `AddEntity` assigns the record by id, so an existing record is replaced (`Assets/GameMain/JellyGame/JellyMap.cs:41`).
- **Cracker walls.** Hitting one is only logged, and the wall stays in the grid (`Assets/GameMain/JellyGame/JellyProcedure.cs:120-125`).
- **Enemy 102.** It is added at (4, 2) (`Assets/GameMain/JellyGame/GameMain.cs:231`), which is a hard wall of the default map. Slides can never hit it (`GameMain.WallGuardNeverHit`).

There is one more thing to know about the level loader. Enemy ids are `200 + x + 10 * y`, so they are unique only on maps at most 10 cells wide. On wider maps two markers can share an id, and the later marker replaces the earlier one (`LevelLoader.EnemyIdCollision`).

## Model

| member | source | states |
|---|---|---|
| Directions.DominantDirection | Assets/GameMain/JellyGame/EnemyAI.cs:179-189 | The chosen step is one of the four unit directions. It is horizontal exactly when the horizontal distance is strictly larger. It points towards the target: its projection on the offset equals the larger distance. A zero offset gives a step down. |
| JellyMap.AddEntity | Assets/GameMain/JellyGame/JellyMap.cs:39-42 | Afterwards the id finds a fresh record with 3 hit points. Every other id finds what it found before. An existing id keeps its place and every id keeps its position. A new id is appended at the end of the store. Unique ids are preserved. |
| JellyMap.ApplyDamage | Assets/GameMain/JellyGame/JellyMap.cs:108-115 | An unknown id changes nothing. A known id's record loses exactly `dmg` hit points and keeps all its other fields. Every other record is untouched, and every id keeps its position in the store. |
| JellyMap.SetPosition | Assets/GameMain/JellyGame/JellyProcedure.cs:104-105 | Writing the final cell changes only that record's coordinates. Every id keeps its position in the store. |
| JellyMap.SetHp | Assets/GameMain/JellyGame/LevelLoader.cs:100 | Writing hit points changes only that record's hit points. Every id keeps its position in the store. |
| JellyMap.GetEntityAt | Assets/GameMain/JellyGame/JellyMap.cs:91-99 | The result is -1 when no living record stands on the cell. Otherwise it is the id of the first living record on the cell, in insertion order. When no record uses id -1, the result is -1 exactly when the cell has no living occupant. |
| JellyMap.DeadNeverReported | Assets/GameMain/JellyGame/JellyMap.cs:91-99 | A record is dead at 0 hit points or fewer, and a dead record is never reported: whatever the cell lookup returns is a living record on that cell. |
| JellyMap.InitLevel | Assets/GameMain/JellyGame/JellyMap.cs:33-37 | The grid is installed. No id is found afterwards. Every cell reports no occupant. |
| JellyMap.Classify | Assets/GameMain/JellyGame/JellyMap.cs:57-79 | Each stop cause holds exactly when its condition does, in the resolver's order. Off the board is the edge. Code 1 is a wall and code 4 a cracker wall. Otherwise a living occupant other than the mover blocks, and the blocker carries that occupant's id. Anything else is open. |
| JellyMap.SlideLength | Assets/GameMain/JellyGame/JellyMap.cs:52-84 | Every cell up to the returned count is open, and the next one is not. |
| JellyMap.CalculateSlide | Assets/GameMain/JellyGame/JellyMap.cs:46-89 | The result meets `IsSlideOutcome`. The final cell lies k cells along the direction, and every cell entered is open. The next cell is closed. The cracker fields are set exactly when a cracker closed the slide, and the hit id exactly when a living jelly did. Otherwise the fields keep the defaults of SlideResult (JellyMap.cs:125). |
| JellyMap.SlideLengthUnique | Assets/GameMain/JellyGame/JellyMap.cs:52-84 | The slide stops at the first closed cell. No other count has a clear path followed by a closed cell. |
| JellyMap.SlideOutcomeUnique | Assets/GameMain/JellyGame/JellyMap.cs:46-89 | Any result that meets the outcome description is the one the resolver returns. |
| JellyMap.SlideEndsOnRay | Assets/GameMain/JellyGame/JellyMap.cs:54-55 | The final cell is the start plus k times the direction. |
| JellyMap.SlideStaysOnBoard | Assets/GameMain/JellyGame/JellyMap.cs:58-63 | Every cell entered is on the board and is not a wall or a cracker. A slide advances at most 6 cells, and at most 5 from a cell on the board. |
| JellyMap.WallShadowsOccupant | Assets/GameMain/JellyGame/JellyMap.cs:62-79 | A jelly standing on a wall or cracker cell never blocks a slide, because the wall checks come first. |
| JellyMap.MarkersArePassable | Assets/GameMain/JellyGame/JellyMap.cs:62-79 | Every cell code other than 1 and 4, spawn markers included, is open when no living jelly stands on it. |
| JellyProcedure.OnEnter | Assets/GameMain/JellyGame/JellyProcedure.cs:25-54 | The demo map is installed. The store holds exactly player 100 at (2, 2) and enemy 200 at (4, 2), both with 3 hit points. It is the player's turn and nothing is animating. |
| JellyProcedure.SwipeDirection | Assets/GameMain/JellyGame/JellyProcedure.cs:83-88 | A swipe gives a unit direction, horizontal exactly when the horizontal extent is strictly larger, pointing the way the finger moved. |
| JellyProcedure.ProcessTurn | Assets/GameMain/JellyGame/JellyProcedure.cs:95-128 | Input is locked. The mover's record moves to the slide's final cell. No other record changes, and the store keeps its order. The hit is left pending, and only when the mover has a visual entity. |
| JellyProcedure.HandleInput | Assets/GameMain/JellyGame/JellyProcedure.cs:71-92 | A press records the start point. A release after a press ends the drag. The drag moves player 100 in the swipe direction only when it is longer than 50 pixels. Any other frame changes nothing. |
| JellyProcedure.OnUpdate | Assets/GameMain/JellyGame/JellyProcedure.cs:56-63 | Input is ignored while animating or during the enemy's turn. |
| JellyProcedure.OnJellyMoveComplete | Assets/GameMain/JellyGame/JellyProcedure.cs:130-146 | Input is unlocked and the turn flips. Passing the turn to the enemy schedules the enemy turn. |
| JellyProcedure.CompleteMove | Assets/GameMain/JellyGame/JellyProcedure.cs:111-146 | The jelly that was run into loses exactly 1 hit point. No other record changes, and the store keeps its order. A cracker hit changes no record. The turn then passes, and the enemy turn is scheduled after a player move. Touch tracking is kept. |
| JellyProcedure.RunEnemyTurn | Assets/GameMain/JellyGame/JellyProcedure.cs:148-153 | A scheduled enemy turn slides enemy 200 one direction to the left, once. |
| JellyProcedure.NoVisualLocksInput | Assets/GameMain/JellyGame/JellyProcedure.cs:108-111 | A mover without a visual entity never completes its move. Input then stays locked whatever frames arrive. |
| JellyProcedure.DemoSlideRightHitsEnemy | Assets/GameMain/JellyGame/JellyProcedure.cs:32-50 | In the demo level, a swipe right stops the player at (3, 2) against enemy 200. |
| JellyProcedure.DemoSlideIntoCracker | Assets/GameMain/JellyGame/JellyProcedure.cs:32-50 | In the demo level, a swipe along +y does not move the player. The cracker at (2, 3) stops it and is reported. |
| JellyProcedure.DemoPlayerMove | Assets/GameMain/JellyGame/JellyProcedure.cs:56-141 | After the demo swipe to the right completes, the store holds the player at (3, 2) and enemy 200 at 2 hit points, in that order, and the enemy turn is scheduled. |
| JellyProcedure.DemoSlideLeftHitsPlayer | Assets/GameMain/JellyGame/JellyProcedure.cs:148-153 | From that board, the enemy's left slide does not move and reports the player as hit. |
| JellyProcedure.DemoEnemyMove | Assets/GameMain/JellyGame/JellyProcedure.cs:111-153 | The scheduled enemy turn leaves the player at 2 hit points and gives the turn back to the player. |
| JellyProcedure.DemoRound | Assets/GameMain/JellyGame/JellyProcedure.cs:56-153 | A full demo round runs: the player bumps the enemy down to 2 hit points, the enemy slides back into the player, and the turn returns to the player. |
| EnemyAI.OnGenerateEntity | Assets/GameMain/JellyGame/EnemyAI.cs:82-94 | Only enemy-type entities get a controller, at their spawn position. A repeated id is a failure, because dictionary Add throws. Other controllers are untouched. |
| EnemyAI.OnDestroyEntity | Assets/GameMain/JellyGame/EnemyAI.cs:96-103 | Exactly the destroyed id loses its controller. |
| EnemyAI.OnEntityMoved | Assets/GameMain/JellyGame/EnemyAI.cs:105-113 | Only a known enemy's position changes, and no controller is added. |
| EnemyAI.Reset | Assets/GameMain/JellyGame/EnemyAI.cs:279-283 | No controller remains. |
| EnemyAI.FindNearestPlayer | Assets/GameMain/JellyGame/EnemyAI.cs:154-171 | Nothing is found exactly when no player is within range. Otherwise the result is a player of least distance, the earliest one on ties. |
| EnemyAI.TryAlternativeMoves | Assets/GameMain/JellyGame/EnemyAI.cs:226-236 | The first legal direction in the order up, right, down, left is chosen. There is no move exactly when all four are blocked. |
| EnemyAI.MoveTowardsTarget | Assets/GameMain/JellyGame/EnemyAI.cs:176-201 | The dominant-axis step towards the target (vertical on a tie) is taken whenever it is legal. Otherwise the fallback order decides. There is no move exactly when all four directions are blocked, and any move is legal. |
| EnemyAI.FisherYates | Assets/GameMain/JellyGame/EnemyAI.cs:263-274 | Swapping each slot from the last down with the drawn earlier slot keeps the length and gives a permutation. |
| EnemyAI.LastSlotDrawsKeepOrder | Assets/GameMain/JellyGame/EnemyAI.cs:263-274 | When every draw picks the slot itself, the list is unchanged. |
| EnemyAI.ZeroDrawsRotate | Assets/GameMain/JellyGame/EnemyAI.cs:263-274 | For any non-empty list, all-zero draws move the first item to the end and every other item up by one. |
| EnemyAI.ZeroDrawsOrder | Assets/GameMain/JellyGame/EnemyAI.cs:206-221 | With all-zero draws, the random move tries right, down, left and then up. |
| EnemyAI.ShuffleList | Assets/GameMain/JellyGame/EnemyAI.cs:263-274 | The loop computes exactly the Fisher-Yates shuffle of the list under the given draws. The result is a permutation of the input. |
| EnemyAI.RandomMove | Assets/GameMain/JellyGame/EnemyAI.cs:206-221 | The move is the first legal direction in the Fisher-Yates order of the four directions under the draws. There is no move exactly when every direction is blocked. |
| EnemyAI.DecideMove | Assets/GameMain/JellyGame/EnemyAI.cs:119-149 | The loop goes on exactly while the enemy has a controller and is active. With a player in range, it heads for the nearest one. Otherwise it takes the first legal direction of the shuffled order. |
| EnemyAI.TieGoesVertical | Assets/GameMain/JellyGame/EnemyAI.cs:182-189 | On equal distances the vertical axis is chosen. Standing on the target gives a step down. |
| EnemyAI.NearestIsUnique | Assets/GameMain/JellyGame/EnemyAI.cs:160-168 | The nearest-player choice is unique: the first of equally near players wins. |
| LevelLoader.ToGrid | Assets/GameMain/JellyGame/LevelLoader.cs:59-70 | The map has as many rows as the level. Every row has the first row's width, and every cell is copied. |
| LevelLoader.SpawnCell | Assets/GameMain/JellyGame/LevelLoader.cs:81-103 | A 2-cell stores player 100 with 3 hit points. A 3-cell stores an enemy with the level's hit points under the id of its cell. Any other cell stores nothing, and no other id changes. |
| LevelLoader.RowsFindIs | Assets/GameMain/JellyGame/LevelLoader.cs:77-105 | Under every id, the scan leaves what a store-free description gives: the record of the last scanned cell that spawns the id, or the id's earlier record when no cell does. |
| LevelLoader.RowsGain | Assets/GameMain/JellyGame/LevelLoader.cs:77-105 | An id that some scanned cell spawns has a record after the scan. |
| LevelLoader.RowsFromMarkers | Assets/GameMain/JellyGame/LevelLoader.cs:77-105 | If every record before the scan came from a marker cell, then so does every record after it. |
| LevelLoader.RowsKeep | Assets/GameMain/JellyGame/LevelLoader.cs:77-105 | An id that no scanned cell spawns is left as it was by the scan. |
| LevelLoader.RowsLast | Assets/GameMain/JellyGame/LevelLoader.cs:77-105 | In row-major order, the last cell that spawns an id decides that id's record. |
| LevelLoader.ParseAndLoad | Assets/GameMain/JellyGame/LevelLoader.cs:49-108 | A level that fails to parse changes nothing. Otherwise the grid is the level's rows cut to the first row's width. Ids are unique, and every stored record is the one its marker cell produces. |
| LevelLoader.LoadedPlayer | Assets/GameMain/JellyGame/LevelLoader.cs:82-86 | The player exists exactly when the map has a player marker. It then stands on a marker with 3 hit points. |
| LevelLoader.LoadedEnemies | Assets/GameMain/JellyGame/LevelLoader.cs:93-103 | On maps at most 10 wide, every enemy marker yields its own enemy, with the level's hit points. |
| LevelLoader.OnePlayerRecord | Assets/GameMain/JellyGame/LevelLoader.cs:82-86 | A loaded level has at most one player record. |
| LevelLoader.EnemyIdCollision | Assets/GameMain/JellyGame/LevelLoader.cs:97 | On an 11-wide map, markers (10, 0) and (0, 1) share id 210, and the later one is what is stored. |
| GameMain.Awake | Assets/GameMain/JellyGame/GameMain.cs:38-56 | The game starts on level 1, initializing, with the default map and no entities. |
| GameMain.SpawnEntities | Assets/GameMain/JellyGame/GameMain.cs:217-232 | Hero 1 is at (1, 1), and enemies 101 at (4, 4) and 102 at (4, 2), each with 3 hit points. Every other id finds what it found before. Unique ids are preserved. |
| GameMain.GetLevelMapData | Assets/GameMain/JellyGame/GameMain.cs:197-202 | Every id gets the default 6x6 map, which is walled on all four sides. |
| GameMain.ChangeGameState | Assets/GameMain/JellyGame/GameMain.cs:364-376 | The new state is set. Asking for the current state does nothing. A real change fires exactly one event carrying the new and old states. |
| GameMain.CheckGameStatus | Assets/GameMain/JellyGame/GameMain.cs:280-318 | A win sets Win and appends a state change (unless already Win) and then the level-won event. A loss without a win does the same with Lose and the level-lost event. Neither changes nothing. |
| GameMain.AfterEnemyActions | Assets/GameMain/JellyGame/GameMain.cs:262-275 | After the status check, the turn returns to the player only if the state is still the enemy turn. The events are the status check's, followed by one change back to the player's turn in that case. Board and controllers are unchanged. |
| GameMain.StartEnemyTurn | Assets/GameMain/JellyGame/GameMain.cs:248-257 | The state becomes the enemy turn, with one change event unless it already was. Board, level and controllers are unchanged. |
| GameMain.LoadLevel | Assets/GameMain/JellyGame/GameMain.cs:168-232 | A finished load (`Loaded`): the id is recorded and the controllers are cleared. The board is the default map holding exactly hero 1 at (1, 1) and enemies 101 at (4, 4) and 102 at (4, 2). The player's turn starts with one event from Loading. |
| GameMain.StartGame | Assets/GameMain/JellyGame/GameMain.cs:154-163 | Starting the game loads the current level, with the controllers cleared, and ends Ready after two change events. |
| GameMain.ResetLevel | Assets/GameMain/JellyGame/GameMain.cs:323-327 | The current level id is loaded afresh: the full load result, on the player's turn. |
| GameMain.NextLevel | Assets/GameMain/JellyGame/GameMain.cs:332-336 | The level after the current one is loaded: the full load result for id + 1. |
| GameMain.RestartGame | Assets/GameMain/JellyGame/GameMain.cs:341-346 | Level 1 is loaded: the full load result for id 1. |
| GameMain.EveryLevelSameBoard | Assets/GameMain/JellyGame/GameMain.cs:197-202 | Every level id, from any prior game, loads the same board. |
| GameMain.WinPrecedence | Assets/GameMain/JellyGame/GameMain.cs:283-293 | With a win, the lose check has no effect. |
| GameMain.ChangeGameStateIdempotent | Assets/GameMain/JellyGame/GameMain.cs:366 | Asking twice for a state fires at most one event. |
| GameMain.EnemyTurnRoundTrip | Assets/GameMain/JellyGame/GameMain.cs:248-275 | An enemy turn without a win or loss returns to the player's turn with exactly two events, and changes nothing else. |
| GameMain.WallGuardNeverHit | Assets/GameMain/JellyGame/GameMain.cs:28-36 | Enemy 102 stands on a hard wall, and slides into its cell stop at the wall. |
| UIManager.RegisterPanel | Assets/GameMain/UI/UIManager.cs:74-81 | A new name is registered and hidden. A known name keeps its first panel, and nothing changes. |
| UIManager.HidePanel | Assets/GameMain/UI/UIManager.cs:114-124 | A registered panel is hidden, and it is popped only when it is on top. An unknown name changes nothing. |
| UIManager.ShowPanel | Assets/GameMain/UI/UIManager.cs:86-109 | An unknown name or the current top changes nothing. Otherwise the old top is hidden and popped, and the named panel is shown and becomes the top. No other panel's visibility changes. |
| UIManager.Back | Assets/GameMain/UI/UIManager.cs:115-142 | An empty stack stays empty. Two entries are popped exactly when the top is registered and the same name sits just below; otherwise one is. The old top ends hidden unless it is the new top, and the new top is shown. No other panel's visibility changes. Under the stack discipline, the stack ends empty with the panel hidden. |
| UIManager.GetPanel | Assets/GameMain/UI/UIManager.cs:199-206 | The panel is returned exactly when it is registered and of the requested type. |
| UIManager.RegisterAll | Assets/GameMain/UI/UIManager.cs:58-64 | Every child panel's name ends registered, earlier registrations are kept, and the stack discipline is preserved. |
| UIManager.RegisterAllFirstWins | Assets/GameMain/UI/UIManager.cs:58-64 | Exactly the children's names are added. A name that was not registered before gets the first child carrying it. |
| UIManager.Startup | Assets/GameMain/UI/UIManager.cs:33-53 | After start-up the game UI is the active panel, if it is among the children. |
| UIManager.RunKeepsValid | Assets/GameMain/UI/UIManager.cs:74-142 | Under any sequence of register, show, hide and back, at most one panel is active, and it is registered and shown. |
| UIManager.ShowThenBack | Assets/GameMain/UI/UIManager.cs:86-142 | Showing a panel twice is the same as once. Showing then going back leaves no panel active and this one hidden. |
| ReviveManager.ReviveCount | Assets/GameMain/Scripts/Game/ReviveManager.cs:11-13 | An unset count reads as 2. |
| ReviveManager.LastDate | Assets/GameMain/Scripts/Game/ReviveManager.cs:23 | An unset date reads as the empty string, and a stored one reads back unchanged. |
| ReviveManager.SetReviveCount | Assets/GameMain/Scripts/Game/ReviveManager.cs:14-18 | A written count reads back, and the stored date is untouched. |
| ReviveManager.ConsumeRevive | Assets/GameMain/Scripts/Game/ReviveManager.cs:36-44 | Consuming succeeds exactly when a revive is left, and then spends exactly one. A failure changes nothing. |
| ReviveManager.AddRevive | Assets/GameMain/Scripts/Game/ReviveManager.cs:46-50 | The count grows by exactly the amount. |
| ReviveManager.CheckDailyRefresh | Assets/GameMain/Scripts/Game/ReviveManager.cs:21-34 | On a new day 2 revives are added and the day is stored. On the stored day nothing changes. |
| ReviveManager.DailyRefreshIdempotent | Assets/GameMain/Scripts/Game/ReviveManager.cs:21-34 | A second check on the same day does nothing. |
| ReviveManager.ConsumeNeverNegative | Assets/GameMain/Scripts/Game/ReviveManager.cs:36-44 | Consuming k times from n ≥ 0 leaves max(n − k, 0). |
| ReviveManager.AddThenConsume | Assets/GameMain/Scripts/Game/ReviveManager.cs:36-50 | Adding one revive and consuming one restores the count. |
| ReviveManager.FirstDay | Assets/GameMain/Scripts/Game/ReviveManager.cs:11-34 | A fresh install on its first day has 4 revives. |
| TimeFormat.FMod60 | Assets/GameMain/UI/VictoryPanelUI.cs:224 | The remainder of C# `%` by 60 takes the sign of the dividend, lies strictly within 60 of zero, and differs from the dividend by a whole multiple of 60. |
| TimeFormat.Pad2 | Assets/GameMain/UI/VictoryPanelUI.cs:225 | The "00" format gives at least two digits, exactly two below 100, and a leading minus for negatives. |
| TimeFormat.Pad2RoundTrip | Assets/GameMain/UI/VictoryPanelUI.cs:225 | Reading a padded number back gives the number. |
| TimeFormat.FormatTime | Assets/GameMain/UI/VictoryPanelUI.cs:221-226 | For a non-negative time, the text has a colon three places from its end. The defeat panel's copy (DefeatPanelUI.cs:185-190) is the same code. |
| TimeFormat.FormatTimeRoundTrip | Assets/GameMain/UI/VictoryPanelUI.cs:221-226 | For a non-negative time, the text reads back as minutes and seconds. The seconds are below 60, and together they make the whole seconds elapsed. |
| VictoryPanel.TimeBonus | Assets/GameMain/UI/VictoryPanelUI.cs:292 | The time bonus lies between 0 and 1000, and it is 0 from 100 s on. |
| VictoryPanel.Stars | Assets/GameMain/UI/VictoryPanelUI.cs:299-310 | The result is 3 stars exactly for at least 5 kills within 60 s. It is 2 stars exactly for at least 3 kills within 120 s otherwise, and 1 star in all other cases. |
| VictoryPanel.Calculate | Assets/GameMain/UI/VictoryPanelUI.cs:284-313 | The inputs are copied. The score is 100 per kill plus the time bonus, so at most 1000 above the kill points. The rating is the star rule. |
| VictoryPanel.StarsMonotone | Assets/GameMain/UI/VictoryPanelUI.cs:299-310 | More kills or less time never lowers the rating. |
| VictoryPanel.ScoreMonotone | Assets/GameMain/UI/VictoryPanelUI.cs:291-293 | More kills or less time never lowers the score. |
| VictoryPanel.ExampleFastWin | Assets/GameMain/UI/VictoryPanelUI.cs:284-313 | 5 kills in 30 s score 1200 with 3 stars. |
| DefeatPanel.Calculate | Assets/GameMain/UI/DefeatPanelUI.cs:256-267 | The inputs are copied, and the score is 100 per kill. |
| DefeatPanel.GetFailureReasonText | Assets/GameMain/UI/DefeatPanelUI.cs:119-134 | Every reason, known or not, has a non-empty text. |
| DefeatPanel.ReasonTextsDistinct | Assets/GameMain/UI/DefeatPanelUI.cs:119-134 | The four named reasons have pairwise distinct texts, all different from the generic one. |
| DefeatPanel.ScoreIgnoresReasonAndTime | Assets/GameMain/UI/DefeatPanelUI.cs:264 | The score does not depend on the reason or the time. |
| EffectsManager.CreateEffectInstance | Assets/GameMain/JellyGame/EffectsManager.cs:71-93 | The new object is the counter's value, the counter advances by one, and the pools are untouched. |
| EffectsManager.InitEffectPool | Assets/GameMain/JellyGame/EffectsManager.cs:55-66 | As the code has it: a new name gets an empty queue, even though two objects are created for it. A known name changes nothing, and other pools are untouched. |
| EffectsManager.PreCreatedObjectsLost | Assets/GameMain/JellyGame/EffectsManager.cs:57-64 | After setup as written, the first get creates a third object. |
| EffectsManager.InitEffectPoolFilled | Assets/GameMain/JellyGame/EffectsManager.cs:55-66 | The corrected setup: a new name gets a queue of the two fresh objects. A known name changes nothing, and other pools are untouched. |
| EffectsManager.PreCreatedObjectsServed | Assets/GameMain/JellyGame/EffectsManager.cs:57-64 | After the corrected setup, the first get hands out a pre-created object and creates nothing. |
| EffectsManager.Init | Assets/GameMain/JellyGame/EffectsManager.cs:42-50 | The four named pools exist afterwards. Each one that is new starts empty, and existing pools are untouched. |
| EffectsManager.GetEffectFromPool | Assets/GameMain/JellyGame/EffectsManager.cs:170-188 | A non-empty pool hands out its oldest object. An empty one makes a fresh object. An unknown name is set up first, and the object handed out is the third one created. Other pools are untouched. |
| EffectsManager.ReturnToPool | Assets/GameMain/JellyGame/EffectsManager.cs:193-211 | A missing object or an unknown name changes nothing. A full pool (5) drops the object. Otherwise the object joins the back of the queue. |
| EffectsManager.GetKeepsBounded | Assets/GameMain/JellyGame/EffectsManager.cs:170-188 | Getting an object never makes a pool exceed 5. |
| EffectsManager.ReturnThenGet | Assets/GameMain/JellyGame/EffectsManager.cs:170-211 | An object returned to an empty pool is the next one handed out, and that restores the manager. |
| EffectsManager.InitIdempotent | Assets/GameMain/JellyGame/EffectsManager.cs:42-66 | Setting up the pools twice is the same as once. |
| EffectsManager.InitFromFresh | Assets/GameMain/JellyGame/EffectsManager.cs:42-66 | Setting up a fresh manager gives the four named pools, all empty, after eight objects are created. |
| EffectsManager.RunKeepsBounded | Assets/GameMain/JellyGame/EffectsManager.cs:37 | Under any sequence of gets, returns and setups, no pool holds more than 5 idle objects. |

## Left out

- Rendering, animation and sound are not modelled: `ShowEntity`, `ExecuteMove` tweening, `PlayHitAnimation`, `GridToWorld`, particle systems, prefabs, fallback effects, `PlayEffect` and colours. The model keeps only their effect on game data. `PlayEffect` is not modelled; it looks up cached particle systems, which fallback objects do not have.
- Coroutines and timing are not modelled: `WaitForSeconds`, the 0.5 s enemy delay and the 1.5 s enemy-action wait. The behaviour loop in `EnemyAIBehavior` is modelled as one decision pass (`EnemyAI.DecideMove`). Scheduling a delayed step is modelled as a flag.
- The event bus is not modelled. Fired events are appended to an event log, and subscriptions are left out. The move-complete event is assumed to follow the hit callback of the same move, as `JellyProcedure.CompleteMove` does.
- File reading and JSON decoding in `LevelLoader.LoadLevel` are not modelled. A file that is missing or fails to parse arrives as `None`.
- The `GameState` enum and `JellyLogic.ENTITY_TYPE_ENEMY` are declared outside the modelled files. The model declares the states itself and takes the enemy type to be 1.
- UIManager.GetPanel: a panel matches only a request for its own kind. A request for the panel base class, which the source's `as T` would match for any panel, is not modelled. Every caller asks for `GameUI`.
- `UIManager.ResetUI`, `ShowVictoryPanel`, `ShowDefeatPanel`, `UpdateLevelInfo` and the panel classes' own show/hide animations are not modelled. They act on the visuals of individual panels, not on the registry or the stack. The clearing of the UI during `GameMain.LoadLevel` is left out for the same reason.
- `GameMain.QuitGame`, the state and level getters, the singleton checks and the persistence call `Setting.Save` are not modelled, because they change no modelled data.
- The map's aliasing of the grid array in `InitLevel` is not modelled. No modelled code writes to the grid, so sharing it is harmless.
- JellyMap.CalculateSlide: requires a grid that covers the 6x6 board and a unit direction. A smaller grid makes the source throw once a slide reads past its edge; the model requires the full 6x6. A zero direction makes it loop forever. Every caller passes a unit direction.
- JellyProcedure.ProcessTurn: requires the mover's id to be in the store. The source's dictionary indexer throws otherwise.
- LevelLoader.ParseAndLoad: requires a non-empty map with no row shorter than the first. The source throws otherwise. A null `mapRows` array is not modelled.
- JellyProcedure.HandleInput: takes mouse coordinates as whole pixels and compares squared lengths, so floating-point input positions are not modelled.
- EnemyAI.FindNearestPlayer: compares squared distances instead of single-precision `Vector2.Distance`, so float rounding is not modelled.
- TimeFormat.FormatTime: seconds are exact reals, so single-precision rounding is not modelled. The minutes field of negative times is formatted but has no stated read-back property.
- VictoryPanel.Calculate: does not model 32-bit overflow of the score for huge kill counts. The same holds for DefeatPanel.Calculate, ReviveManager.AddRevive and enemy ids. Integers are unbounded throughout.

## Findings

| source | as written | input that shows it | evidently intended | confidence | as-written member | corrected member |
|---|---|---|---|---|---|---|
| Assets/GameMain/JellyGame/EffectsManager.cs:57-64 | The objects created when a pool is set up are discarded, and the queue stays empty. | Set up "HitEffect", then get from it. The pool is empty, so a third object is created. The two pre-created objects are never used. | The two pre-created objects go into the new pool, as the comment on the loop says. | high, not executed | EffectsManager.PreCreatedObjectsLost | EffectsManager.PreCreatedObjectsServed |

The rest of the model follows the code and uses `EffectsManager.InitEffectPool`. `EffectsManager.InitEffectPoolFilled` is the intended setup, and `EffectsManager.PreCreatedObjectsServed` proves that it serves the pre-created objects.
