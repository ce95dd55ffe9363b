/**
 * The discrete decisions of `PlayerController`, with the floating-point
 * geometry taken out: which unit step the pressed keys ask for, and what the
 * tile the player lands on means for the game.
 */
module PlayerRules {

  /** The terrain kinds a map cell can stand for (`GenerateLevel.TerrainType`). */
  datatype Terrain = Grass | Path | Edge | Obstacle

  /** The keys polled with `Input.GetKeyDown` in one frame. */
  datatype Keys = Keys(w: bool, up: bool, s: bool, down: bool, a: bool, left: bool, d: bool, right: bool)

  /** A requested move in tiles: `moveX` along the columns, `moveZ` along the rows. */
  datatype Step = Step(moveX: int, moveZ: int)

  /** What a landing tile asks the level controller to do. */
  datatype TileEvent = NoTransition | FallBack | NextLevel

  predicate AnyKey(k: Keys) {
    k.w || k.up || k.s || k.down || k.a || k.left || k.d || k.right
  }

  /**
   * The step of `HandleMovement`: up (W or the up arrow) wins over down (S or
   * the down arrow), which wins over left (A), which wins over right (D).
   */
  function ChooseStep(k: Keys): (st: Step)
    ensures st.moveX == 0 || st.moveZ == 0
    ensures -1 <= st.moveX <= 1 && -1 <= st.moveZ <= 1
    ensures st == Step(0, 0) <==> !AnyKey(k)
    ensures (k.w || k.up) ==> st == Step(0, -1)
    ensures !(k.w || k.up) && (k.s || k.down) ==> st == Step(0, 1)
    ensures !(k.w || k.up || k.s || k.down) && (k.a || k.left) ==> st == Step(-1, 0)
    ensures !(k.w || k.up || k.s || k.down || k.a || k.left) && (k.d || k.right) ==> st == Step(1, 0)
  {
    if k.w || k.up then Step(0, -1)
    else if k.s || k.down then Step(0, 1)
    else if k.a || k.left then Step(-1, 0)
    else if k.d || k.right then Step(1, 0)
    else Step(0, 0)
  }

  /**
   * The rule of `CheckTile`: an obstacle means falling back a level, even in
   * the last column; otherwise the last column means the next level.
   */
  function TileOutcome(tile: Terrain, col: int, gridSize: int): (e: TileEvent)
    ensures e == FallBack <==> tile == Obstacle
    ensures e == NextLevel <==> tile != Obstacle && col == gridSize - 1
    ensures e == NoTransition <==> tile != Obstacle && col != gridSize - 1
  {
    if tile == Obstacle then FallBack
    else if col == gridSize - 1 then NextLevel
    else NoTransition
  }

  /**
   * The event one call of `HandleMovement` produces: a tile is checked only
   * when some key asked for a step and the step stays on the grid.
   */
  function MoveEvent(k: Keys, withinBounds: bool, tile: Terrain, col: int, gridSize: int): (e: TileEvent)
    ensures !AnyKey(k) ==> e == NoTransition
    ensures !withinBounds ==> e == NoTransition
    ensures AnyKey(k) && withinBounds ==> e == TileOutcome(tile, col, gridSize)
  {
    var st := ChooseStep(k);
    if (st.moveX != 0 || st.moveZ != 0) && withinBounds then TileOutcome(tile, col, gridSize)
    else NoTransition
  }
}
