/**
 * `LevelController` and `PlayerController` as objects. The two refer to each
 * other (the controller enables and resets the player; the player asks the
 * controller to advance or fall back), so they share one module.
 */
module Game {
  import opened Options
  import opened IntText
  import opened PlayerRules
  import opened LevelProgress
  import GenerateLevel

  predicate Distinct<T(==)>(s: seq<T>) {
    forall i, j | 0 <= i < j < |s| :: s[i] != s[j]
  }

  const LevelPrefix := "Level: "
  const HighscorePrefix := "Highest level reached: "

  /** A label made of a fixed prefix and an interpolated `int`; the number after the prefix reads back. */
  function Label(prefix: string, n: int): (t: string)
    ensures |t| > |prefix| && t[..|prefix|] == prefix
    ensures ParseDecimal(t[|prefix|..]) == Some(n)
  {
    var t := prefix + ToDecimal(n);
    assert t[..|prefix|] == prefix && t[|prefix|..] == ToDecimal(n);
    ParseDecimalToDecimal(n);
    t
  }

  class LevelController {
    const gridSize: nat
    const totalLevels: int

    var currentLevelIndex: int
    var currentMap: array2?<int>
    /** The maps generated so far, in level order. */
    var currentMapList: seq<array2<int>>
    var player: PlayerController?

    /** Which of the win and lose screens is active, with the highscore on the latter. */
    var screen: Screen
    var levelNumberText: string
    var highscoreText: string
    /** A `HideMap` coroutine has been started by `BuildLevel` and has not finished. */
    var hidePending: bool

    ghost function State(): Progress
      reads this
    {
      Progress(currentLevelIndex, |currentMapList|, screen)
    }

    ghost predicate Valid()
      reads this, player
    {
      && Inv(State(), totalLevels)
      && Distinct(currentMapList)
      && (forall i | 0 <= i < |currentMapList| ::
            currentMapList[i].Length0 == gridSize && currentMapList[i].Length1 == gridSize)
      && currentMap in currentMapList
      && (screen == Playing ==> currentMap == currentMapList[currentLevelIndex])
      && (screen == Playing ==> levelNumberText == Label(LevelPrefix, currentLevelIndex + 1))
      && (screen.Lost? ==> highscoreText == Label(HighscorePrefix, screen.highscore))
      && (hidePending ==> screen == Playing)
      && (player != null && player.allowedToMove ==> screen == Playing && !hidePending)
    }

    /** Creation followed by `Start`: an empty cache, then level 0 built and both end screens off. */
    constructor (gridSize: nat, totalLevels: int, player: PlayerController?)
      requires player != null ==> !player.allowedToMove
      ensures Valid() && State() == Initial()
      ensures this.gridSize == gridSize && this.totalLevels == totalLevels && this.player == player
      ensures fresh(currentMap) && currentMapList == [currentMap]
      ensures hidePending
    {
      this.gridSize := gridSize;
      this.totalLevels := totalLevels;
      currentLevelIndex := 0;
      currentMap := null;
      currentMapList := [];
      this.player := player;
      screen := Playing;
      levelNumberText := "";
      highscoreText := "";
      hidePending := false;
      new;
      BuildLevel(currentLevelIndex);
    }

    /**
     * Generates and caches a map for an index past the end of the cache, or
     * loads the cached one; then shows it, starts hiding it, and labels the level.
     */
    method BuildLevel(levelIndex: int)
      requires 0 <= levelIndex
      modifies this
      ensures levelIndex > |old(currentMapList)| - 1 ==>
                && fresh(currentMap) && currentMap.Length0 == gridSize && currentMap.Length1 == gridSize
                && currentMapList == old(currentMapList) + [currentMap]
      ensures levelIndex <= |old(currentMapList)| - 1 ==>
                currentMap == old(currentMapList)[levelIndex] && currentMapList == old(currentMapList)
      ensures levelNumberText == Label(LevelPrefix, currentLevelIndex + 1)
      ensures hidePending
      ensures currentLevelIndex == old(currentLevelIndex) && screen == old(screen)
      ensures player == old(player) && highscoreText == old(highscoreText)
    {
      if levelIndex > |currentMapList| - 1 {
        var grid := GenerateLevel.GenerateArray(gridSize);
        // GeneratePath and PadMapEdges, which carve the path into this map and
        // mark its edge columns, are not part of this model.
        currentMap := grid;
        currentMapList := currentMapList + [grid];
      } else {
        currentMap := currentMapList[levelIndex];
      }
      // PlaceMap instantiates the tiles; StartCoroutine(HideMap(...)):
      hidePending := true;
      levelNumberText := Label(LevelPrefix, currentLevelIndex + 1);
    }

    /** The end of the `HideMap` coroutine: the map is hidden and the player may move. */
    method HideMap()
      requires Valid() && hidePending
      modifies this, player
      ensures Valid() && !hidePending && State() == old(State())
      ensures currentMap == old(currentMap) && currentMapList == old(currentMapList)
      ensures player == old(player)
      ensures player != null ==> player.allowedToMove && player.timeElapsed == old(player.timeElapsed)
      ensures player != null ==>
                player.levelController == old(player.levelController) &&
                player.transitionDuration == old(player.transitionDuration)
      ensures levelNumberText == old(levelNumberText) && highscoreText == old(highscoreText)
    {
      hidePending := false;
      if player != null {
        player.allowedToMove := true;
      }
    }

    method GetCurrentMap() returns (m: array2?<int>)
      ensures m == currentMap
      ensures Valid() && screen == Playing ==> m == currentMapList[currentLevelIndex]
    {
      m := currentMap;
    }

    /** Shows the win screen, or the lose screen with the number of maps generated. */
    method ShowGameOverScreen(gameWon: bool)
      modifies this
      ensures screen == if gameWon then Won else Lost(|currentMapList|)
      ensures highscoreText == if gameWon then old(highscoreText) else Label(HighscorePrefix, |currentMapList|)
      ensures currentLevelIndex == old(currentLevelIndex) && currentMapList == old(currentMapList)
      ensures currentMap == old(currentMap) && player == old(player)
      ensures levelNumberText == old(levelNumberText) && hidePending == old(hidePending)
    {
      if gameWon {
        screen := Won;
      } else {
        screen := Lost(|currentMapList|);
        highscoreText := Label(HighscorePrefix, |currentMapList|);
      }
    }

    method AdvanceToNextLevel()
      requires Valid() && screen == Playing && !hidePending
      modifies this, player
      ensures Valid() && State() == Advance(old(State()), totalLevels)
      ensures old(currentMapList) <= currentMapList
      ensures player == old(player) && highscoreText == old(highscoreText)
      ensures player != null ==>
                && !player.allowedToMove
                && player.levelController == old(player.levelController)
                && player.transitionDuration == old(player.transitionDuration)
      ensures screen == Won ==>
                && currentMapList == old(currentMapList) && currentMap == old(currentMap) && !hidePending
                && levelNumberText == old(levelNumberText)
                && (player != null ==> player.timeElapsed == old(player.timeElapsed))
      ensures screen == Playing ==>
                && hidePending
                && (player != null ==> player.timeElapsed == 0.0)
                && (currentLevelIndex < |old(currentMapList)| ==>
                      currentMapList == old(currentMapList) && currentMap == old(currentMapList)[currentLevelIndex])
                && (currentLevelIndex == |old(currentMapList)| ==> fresh(currentMap))
    {
      currentLevelIndex := currentLevelIndex + 1;
      if currentLevelIndex >= totalLevels {
        if player != null {
          player.allowedToMove := false;
        }
        ShowGameOverScreen(true);
        return;
      }
      BuildLevel(currentLevelIndex);
      if player != null {
        player.ResetPosition();
      }
    }

    method BackToPreviousLevel()
      requires Valid() && screen == Playing && !hidePending
      modifies this, player
      ensures Valid() && State() == Back(old(State()), totalLevels)
      ensures currentMapList == old(currentMapList)
      ensures player == old(player)
      ensures player != null ==>
                && !player.allowedToMove
                && player.levelController == old(player.levelController)
                && player.transitionDuration == old(player.transitionDuration)
      ensures screen.Lost? ==>
                && currentMap == old(currentMap) && !hidePending
                && levelNumberText == old(levelNumberText)
                && (player != null ==> player.timeElapsed == old(player.timeElapsed))
      ensures screen == Playing ==>
                && hidePending && currentMap == old(currentMapList)[currentLevelIndex]
                && highscoreText == old(highscoreText)
                && (player != null ==> player.timeElapsed == 0.0)
    {
      currentLevelIndex := currentLevelIndex - 1;
      if currentLevelIndex < 0 {
        if player != null {
          player.allowedToMove := false;
        }
        ShowGameOverScreen(false);
        return;
      }
      BuildLevel(currentLevelIndex);
      if player != null {
        player.ResetPosition();
      }
    }
  }

  class PlayerController {
    var levelController: LevelController?
    var allowedToMove: bool
    var transitionDuration: real
    var timeElapsed: real

    constructor ()
      ensures levelController == null && !allowedToMove
      ensures transitionDuration == 0.0 && timeElapsed == 0.0
    {
      levelController := null;
      allowedToMove := false;
      transitionDuration := 0.0;
      timeElapsed := 0.0;
    }

    /** Remembers the level controller found in the scene and its transition time. */
    method Start(found: LevelController?, levelTransitionTime: real)
      modifies this
      ensures levelController == found
      ensures transitionDuration == if found == null then old(transitionDuration) else levelTransitionTime
      ensures allowedToMove == old(allowedToMove) && timeElapsed == old(timeElapsed)
    {
      levelController := found;
      if levelController == null {
        return;
      }
      transitionDuration := levelTransitionTime;
    }

    /** This player is the one its level controller drives. */
    ghost predicate Linked()
      reads this, levelController
    {
      levelController != null && levelController.player == this
    }

    /**
     * One frame: glide towards the target while movement is off, otherwise
     * read the keys. Without a level controller (one that `Start` did not
     * find) only the glide branch can run.
     */
    method Update(keys: Keys, withinBounds: bool, tile: Terrain, col: int, deltaTime: real)
      requires allowedToMove ==> Linked() && levelController.Valid()
      modifies this, levelController
      ensures levelController == old(levelController) && transitionDuration == old(transitionDuration)
      ensures !old(allowedToMove) ==>
                && !allowedToMove
                && timeElapsed == (if old(timeElapsed) < transitionDuration then old(timeElapsed) + deltaTime else old(timeElapsed))
                && (levelController != null ==> unchanged(levelController))
      ensures old(allowedToMove) ==>
                var e := MoveEvent(keys, withinBounds, tile, col, levelController.gridSize);
                && Linked() && levelController.Valid()
                && levelController.State() == Respond(old(levelController.State()), e, levelController.totalLevels)
                && old(levelController.currentMapList) <= levelController.currentMapList
                && (allowedToMove <==> e == NoTransition)
                && (e == NoTransition ==> unchanged(levelController) && timeElapsed == old(timeElapsed))
                && (e != NoTransition && levelController.screen == Playing ==>
                      levelController.hidePending && timeElapsed == 0.0)
                && (e != NoTransition && levelController.screen != Playing ==>
                      && levelController.currentMap == old(levelController.currentMap)
                      && levelController.levelNumberText == old(levelController.levelNumberText)
                      && timeElapsed == old(timeElapsed))
                && (!levelController.screen.Lost? ==>
                      levelController.highscoreText == old(levelController.highscoreText))
    {
      if !allowedToMove {
        // The position is interpolated between the old and the target position.
        if timeElapsed < transitionDuration {
          timeElapsed := timeElapsed + deltaTime;
        }
      } else {
        HandleMovement(keys, withinBounds, tile, col);
      }
    }

    /**
     * Moves one tile in the direction the keys ask for and checks the tile
     * landed on; `withinBounds` is the verdict of the grid-bounds test on the
     * target position, and `tile` and `col` describe the target cell.
     */
    method HandleMovement(keys: Keys, withinBounds: bool, tile: Terrain, col: int)
      requires Linked() && levelController.Valid() && allowedToMove
      modifies this, levelController
      ensures levelController == old(levelController) && Linked() && levelController.Valid()
      ensures transitionDuration == old(transitionDuration)
      ensures var e := MoveEvent(keys, withinBounds, tile, col, levelController.gridSize);
              && levelController.State() == Respond(old(levelController.State()), e, levelController.totalLevels)
              && old(levelController.currentMapList) <= levelController.currentMapList
              && (allowedToMove <==> e == NoTransition)
              && (e == NoTransition ==> unchanged(levelController) && timeElapsed == old(timeElapsed))
              && (e != NoTransition && levelController.screen == Playing ==>
                    levelController.hidePending && timeElapsed == 0.0)
              && (e != NoTransition && levelController.screen != Playing ==>
                    && levelController.currentMap == old(levelController.currentMap)
                    && levelController.levelNumberText == old(levelController.levelNumberText)
                    && timeElapsed == old(timeElapsed))
              && (!levelController.screen.Lost? ==>
                    levelController.highscoreText == old(levelController.highscoreText))
    {
      var step := ChooseStep(keys);
      if step.moveX != 0 || step.moveZ != 0 {
        if withinBounds {
          CheckTile(tile, col);
        }
      }
    }

    method CheckTile(tile: Terrain, col: int)
      requires Linked() && levelController.Valid() && allowedToMove
      modifies this, levelController
      ensures levelController == old(levelController) && Linked() && levelController.Valid()
      ensures transitionDuration == old(transitionDuration)
      ensures var e := TileOutcome(tile, col, levelController.gridSize);
              && levelController.State() == Respond(old(levelController.State()), e, levelController.totalLevels)
              && old(levelController.currentMapList) <= levelController.currentMapList
              && (allowedToMove <==> e == NoTransition)
              && (e == NoTransition ==> unchanged(levelController) && timeElapsed == old(timeElapsed))
              && (e != NoTransition && levelController.screen == Playing ==>
                    levelController.hidePending && timeElapsed == 0.0)
              && (e != NoTransition && levelController.screen != Playing ==>
                    && levelController.currentMap == old(levelController.currentMap)
                    && levelController.levelNumberText == old(levelController.levelNumberText)
                    && timeElapsed == old(timeElapsed))
              && (!levelController.screen.Lost? ==>
                    levelController.highscoreText == old(levelController.highscoreText))
    {
      if tile == Obstacle {
        FallDown();
      } else if col == levelController.gridSize - 1 {
        MoveToNextLevel();
      }
    }

    method MoveToNextLevel()
      requires Linked() && levelController.Valid()
      requires levelController.screen == Playing && !levelController.hidePending
      modifies this, levelController
      ensures levelController == old(levelController) && Linked() && levelController.Valid()
      ensures levelController.State() == Advance(old(levelController.State()), levelController.totalLevels)
      ensures old(levelController.currentMapList) <= levelController.currentMapList
      ensures !allowedToMove && transitionDuration == old(transitionDuration)
      ensures levelController.screen == Playing ==> levelController.hidePending && timeElapsed == 0.0
      ensures levelController.highscoreText == old(levelController.highscoreText)
      ensures levelController.screen == Won ==>
                && levelController.currentMapList == old(levelController.currentMapList)
                && levelController.currentMap == old(levelController.currentMap)
                && levelController.levelNumberText == old(levelController.levelNumberText)
                && !levelController.hidePending && timeElapsed == old(timeElapsed)
    {
      allowedToMove := false;
      levelController.AdvanceToNextLevel();
    }

    method FallDown()
      requires Linked() && levelController.Valid()
      requires levelController.screen == Playing && !levelController.hidePending
      modifies this, levelController
      ensures levelController == old(levelController) && Linked() && levelController.Valid()
      ensures levelController.State() == Back(old(levelController.State()), levelController.totalLevels)
      ensures levelController.currentMapList == old(levelController.currentMapList)
      ensures !allowedToMove && transitionDuration == old(transitionDuration)
      ensures levelController.screen == Playing ==>
                && levelController.hidePending && timeElapsed == 0.0
                && levelController.currentMap == old(levelController.currentMapList)[levelController.currentLevelIndex]
                && levelController.highscoreText == old(levelController.highscoreText)
      ensures levelController.screen.Lost? ==>
                && levelController.currentMap == old(levelController.currentMap)
                && levelController.levelNumberText == old(levelController.levelNumberText)
                && !levelController.hidePending && timeElapsed == old(timeElapsed)
    {
      allowedToMove := false;
      levelController.BackToPreviousLevel();
    }

    /** Stops movement and restarts the glide towards the starting tile. */
    method ResetPosition()
      modifies this
      ensures !allowedToMove && timeElapsed == 0.0
      ensures levelController == old(levelController) && transitionDuration == old(transitionDuration)
    {
      allowedToMove := false;
      timeElapsed := 0.0;
    }
  }
}
