# Memory Descent: level progression, map allocation and player rules

Memory Descent is a Unity game. Each level is a square grid of tiles. The map
is shown for a few seconds and then hidden. The player must then walk from the
left edge to the right edge. Stepping on an obstacle sends the player back one
level. Reaching the last column moves the player on to the next level. Once a
level's map is generated it is cached, so falling back to a level shows the
same map again. Winning means passing `totalLevels` levels. Losing means
falling back from level 0, and the lose screen then shows how many maps were
generated.

This project models the game's three discrete parts:

- `LevelController`: the level index and the map cache. The state machine
  itself is in module `LevelProgress`. The object that follows it step by step
  is class `Game.LevelController`.
- `GenerateLevel`: allocating the zero-filled `int[,]` map, the empty path
  constructor, and the console dump of the map (module `GenerateLevel`).
- `PlayerController`: the key-to-step priority and the landing-tile rule, as
  pure functions in module `PlayerRules`. The movement flag and the calls into
  the level controller are in class `Game.PlayerController`.

Module `IntText` models how C# writes an `int` as text. The map dump and both
labels use it. It also gives a parser, so that each text can be shown to
determine its number.

Main proved facts:

- While a level is being played, the index names a cached map, and
  `currentMap` is that map. A new index appends exactly one fresh map. A
  cached index reuses its stored map.
- The cache only grows by appending, and its maps never alias one another.
- On a loss, the highscore is the highest level number reached.
- A win happens only once every level has a cached map.
- Movement is allowed only while a level is in play with its map hidden. This
  is what makes the controller's preconditions hold whenever the player calls
  it.

## What the code does not contain

The code has no path-carving logic. `GenerateLevel.ConstructPath` has an empty
body. `LevelController.cs` calls `GeneratePath` and `PadMapEdges` (lines
50-52) and uses `TerrainType` (lines 94-102). None of them is defined in
`GenerateLevel.cs`. So after `BuildLevel`, a map is known only by its size and
by the fact that it is freshly allocated.

## Model

| member | source | states |
|---|---|---|
| GenerateLevel.GenerateArray | Assets/Scripts/GenerateLevel.cs:20-30 | a freshly allocated size×size map (never aliasing an earlier one) whose every cell is 0 |
| GenerateLevel.ConstructPath | Assets/Scripts/GenerateLevel.cs:33-40 | the path constructor leaves the map unchanged |
| GenerateLevel.PrintMap | Assets/Scripts/GenerateLevel.cs:42-53 | one line per row in row order, each line the row's cells in column order as decimal text each followed by one space; each line reads back as exactly that row; the map is not modified |
| GenerateLevel.RowStringAppend | Assets/Scripts/GenerateLevel.cs:46-50 | appending a cell to the row adds its decimal text and a space at the end of the line, as the column loop does |
| GenerateLevel.ParseRowString | Assets/Scripts/GenerateLevel.cs:46-50 | a printed row determines the row: parsing the line gives back the cell values in order |
| IntText.ToDecimal | Assets/Scripts/GenerateLevel.cs:49 | the text of an int is non-empty, contains no space, and starts with '-' exactly for negative numbers |
| IntText.ParseDecimalToDecimal | Assets/Scripts/GenerateLevel.cs:49 | the decimal text of any int reads back as that int |
| IntText.ToDecimalInjective | Assets/Scripts/LevelController.cs:69 | different numbers get different texts, so a label determines its number |
| PlayerRules.ChooseStep | Assets/Scripts/PlayerController.cs:53-63 | the step has at most one non-zero component, each in {-1, 0, 1}; it is zero exactly when no key is pressed; W/Up beats S/Down beats A/Left beats D/Right |
| PlayerRules.TileOutcome | Assets/Scripts/PlayerController.cs:103-113 | fall back exactly on an obstacle (the last column included); next level exactly on a non-obstacle in column gridSize − 1; otherwise no transition |
| PlayerRules.MoveEvent | Assets/Scripts/PlayerController.cs:65-76 | with no key pressed, or a target off the grid, no tile is checked and nothing happens; otherwise the tile rule decides |
| LevelProgress.Build | Assets/Scripts/LevelController.cs:48-62 | building keeps the index and the screen; an index already in the cache leaves everything as it was; an index at most one past the cache makes the cache cover it (size max(cached, index + 1)) |
| LevelProgress.Initial | Assets/Scripts/LevelController.cs:36-43 | Start leaves index 0, one cached map, no end screen |
| LevelProgress.Advance | Assets/Scripts/LevelController.cs:175-197 | the index goes up by one; the win is chosen exactly when it reaches totalLevels, and then nothing is generated; otherwise the cache covers the new index; the invariant is kept |
| LevelProgress.Back | Assets/Scripts/LevelController.cs:199-220 | the index goes down by one; the loss is chosen exactly when it falls below 0; falling back never generates a map; the invariant is kept |
| LevelProgress.Respond | Assets/Scripts/PlayerController.cs:104-134 | answering a landing tile keeps the index/cache invariant |
| LevelProgress.Run | Assets/Scripts/LevelController.cs:175-220 | from any valid state, any sequence of moves keeps the invariant (while playing, 0 ≤ index < count) and never shrinks the cache |
| LevelProgress.CacheTracksPeak | Assets/Scripts/LevelController.cs:48-57 | after any run, the cache size is one more than the highest level index played, so a map exists exactly for levels 0 up to the highest reached |
| LevelProgress.HighscoreIsHighestLevel | Assets/Scripts/LevelController.cs:229 | on a loss, the highscore equals the highest level index reached plus one |
| LevelProgress.WinCachesEveryLevel | Assets/Scripts/LevelController.cs:179-188 | on a win, a map has been generated for every level (max(1, totalLevels) maps) |
| Game.Label | Assets/Scripts/LevelController.cs:69 | a label ("Level: " for the level number, "Highest level reached: " on the lose screen) is its prefix followed by text that reads back as the interpolated number |
| Game.LevelController.constructor | Assets/Scripts/LevelController.cs:22-43 | creation plus Start: an empty cache, then level 0 built; the cache is exactly the one fresh map, which is current; the invariant holds |
| Game.LevelController.BuildLevel | Assets/Scripts/LevelController.cs:45-70 | an index past the cache appends exactly one fresh size×size map and makes it current; a cached index makes the stored map current and leaves the cache unchanged; the label shows currentLevelIndex + 1 |
| Game.LevelController.HideMap | Assets/Scripts/LevelController.cs:123-168 | when the hiding coroutine ends, the player may move; the level state, the maps, the labels and the player's clock, transition time and controller stay as they were |
| Game.LevelController.GetCurrentMap | Assets/Scripts/LevelController.cs:170-173 | returns the current map, which during play is the cached map of the current index |
| Game.LevelController.ShowGameOverScreen | Assets/Scripts/LevelController.cs:222-232 | shows the win screen, or the lose screen with the cache size as the highscore |
| Game.LevelController.AdvanceToNextLevel | Assets/Scripts/LevelController.cs:175-197 | follows LevelProgress.Advance; the cache is only extended and the highscore text is untouched; a win disables movement, builds nothing and leaves the maps, the level label and the player's clock as they were; otherwise the level is built (a revisited level gets its stored map), its map is being hidden and the player is reset; the player's transition time is kept |
| Game.LevelController.BackToPreviousLevel | Assets/Scripts/LevelController.cs:199-220 | follows LevelProgress.Back; the cache is unchanged; a loss disables movement, builds nothing and leaves the map, the level label and the player's clock as they were; otherwise the stored map of the lower level becomes current, is being hidden, and the player is reset; the highscore text and the player's transition time are kept |
| Game.PlayerController.constructor | Assets/Scripts/PlayerController.cs:9-16 | a new player has no controller, may not move, and has no elapsed transition time |
| Game.PlayerController.Start | Assets/Scripts/PlayerController.cs:19-30 | records the level controller found; the transition time is copied only when one was found |
| Game.PlayerController.Update | Assets/Scripts/PlayerController.cs:32-49 | while movement is off (with or without a level controller), no key is read, the controller is untouched and only the transition clock advances; otherwise the level state follows the response to MoveEvent, the cached maps are kept, movement stays allowed exactly when no transition happened, no transition leaves the controller untouched, and a transition that keeps play going leaves the new map being hidden and the clock at 0; a transition that ends the game leaves the map, the level label and the clock as they were; the highscore text changes only on a loss |
| Game.PlayerController.HandleMovement | Assets/Scripts/PlayerController.cs:51-77 | the level state follows the response to MoveEvent; the cached maps are kept; movement stays allowed exactly when no transition happened; no transition leaves the controller and the clock untouched; a transition that keeps play going leaves the new map being hidden and the clock at 0; a transition that ends the game leaves the map, the level label and the clock as they were; the highscore text changes only on a loss |
| Game.PlayerController.CheckTile | Assets/Scripts/PlayerController.cs:94-114 | the level state follows the response to TileOutcome; the cached maps are kept; movement is disabled exactly when a transition happens; no transition leaves the controller and the clock untouched; a transition that keeps play going leaves the new map being hidden and the clock at 0; a transition that ends the game leaves the map, the level label and the clock as they were; the highscore text changes only on a loss |
| Game.PlayerController.MoveToNextLevel | Assets/Scripts/PlayerController.cs:124-128 | disables movement, then advances the level controller: the cached maps are kept; if play goes on the new map is being hidden and the clock is at 0; the highscore text is kept; on a win the cache, the map, the level label and the clock are unchanged |
| Game.PlayerController.FallDown | Assets/Scripts/PlayerController.cs:130-134 | disables movement, then sends the level controller one level back: the cache is unchanged; if play goes on the stored map of the lower level is current and being hidden, the clock is at 0 and the highscore text is kept; on a loss the map, the level label and the clock are unchanged |
| Game.PlayerController.ResetPosition | Assets/Scripts/PlayerController.cs:136-147 | disables movement and restarts the transition clock at 0 |

## Left out

- Path generation (`GeneratePath`, `PadMapEdges`, the numeric values of
  `TerrainType`): not defined in the code that makes up this model. A map's
  contents after `BuildLevel` are left unspecified. Its body allocates the map
  with `GenerateArray` and does nothing else to it.
- Rendering in `PlaceMap` and `HideMap` (`Instantiate`, renderer bounds,
  float tile positions, the level's parent object): this is Unity object
  creation and float layout.
- Coroutine timing (`WaitForSeconds`): the running `HideMap` coroutine is the
  flag `hidePending`. Its end is the method `HideMap`, called by the
  environment.
- UI objects and scenes: the TextMeshPro texts are kept as strings, and the
  active end screen as `screen`. The model assumes that both `WinScreen` and
  `LoseScreen` are assigned in the scene, so the null checks in
  `ShowGameOverScreen` always pass. If one were missing, `Start` would throw
  after level 0 is built and end early, play would go on, and a later
  `ShowGameOverScreen` would skip that screen and the highscore text. The
  model does not capture that case. `ResetGame` reloads the scene, a call
  into Unity.
- Log output: `PrintMap` returns the lines it would send to `Debug.Log`. The
  "You Win!" and "You Lose!" logs of `AdvanceToNextLevel` and
  `BackToPreviousLevel`, and the `Debug.LogError` in the player's `Start`
  when no level controller is found, are console output and are not modelled.
- Player geometry: the `Vector3.Lerp` glide, `IsWithinGridBounds`, the
  rounding in `GetGridPosition`, the start coordinates in `ResetPosition`,
  and the read of `currentMap[row, col]` with its enum cast. All of these are
  floating point or depend on the missing `TerrainType`. `HandleMovement`
  receives three values as parameters: the bounds test's verdict, the terrain
  of the target cell, and its column. `CheckTile` receives the last two. `levelTransitionTime` is not
  defined in `LevelController`. `Start` receives it as a parameter.
  `transitionDuration` and `timeElapsed` are C# `float`s and are modelled
  as `real`, so the float rounding of the glide clock is not captured.
- `Input.GetKeyDown` polling: the keys of one frame are the booleans of `Keys`.
- `IsometricCamera.cs` and `SoundManager.cs`: camera smoothing and audio
  playback. They hold no discrete logic.
- Game.LevelController.AdvanceToNextLevel: requires a level in play with its
  map hidden. The stateful model has no behaviour for calls made after the game
  ends or while a map is still shown. The code would do odd things then (the
  cache could stop matching the index), but its only caller, the player's
  movement, never makes such calls. The invariant `allowedToMove ==> playing
  and map hidden` in `Valid` proves this.
- Game.LevelController.BackToPreviousLevel: the same precondition as
  `AdvanceToNextLevel`, for the same reason.
- Game.LevelController.BuildLevel: requires `levelIndex >= 0`. For a negative
  index the C# list indexer throws.
- Game.PlayerController.ResetPosition: has no requirement on the level
  controller. The code reads the tile size through `levelController` after
  setting `allowedToMove = false`. With no controller it would throw there,
  before `timeElapsed` is reset. The code's own calls never reach that case,
  because only a level controller calls `ResetPosition`.
- GenerateLevel.GenerateArray: takes a `nat`; `new int[size, size]` throws
  for a negative size, and that exception is not modelled.
- `int` width: values are unbounded integers. The level index and the cache
  size stay far below 2^31 in this game.
- Game.PlayerController.MoveToNextLevel: requires the player to be the one its
  controller drives, and a level in play. In the code a missing controller
  would throw.
- Game.PlayerController.FallDown: the same precondition as `MoveToNextLevel`.
