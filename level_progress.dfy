/**
 * The level-progression state machine of `LevelController`, seen through the
 * numbers it keeps: the current level index, how many maps the cache holds,
 * and which screen is up. The class in module Game is proved to follow these
 * functions step by step; the lemmas here say what any run of them does.
 */
module LevelProgress {
  import opened PlayerRules

  /** Neither end screen, the win screen, or the lose screen with its highscore. */
  datatype Screen = Playing | Won | Lost(highscore: int)

  datatype Progress = Progress(index: int, cached: nat, screen: Screen)

  function Max(a: int, b: int): int {
    if a < b then b else a
  }

  /**
   * What holds between the index and the cache in every reachable state: while
   * playing, the index names a cached map; a win leaves the index one past the
   * cache; a loss leaves it at -1 with the cache size as highscore. The cache
   * never outgrows the level count (level 0 is always built).
   */
  predicate Inv(p: Progress, totalLevels: int) {
    && 1 <= p.cached <= Max(1, totalLevels)
    && match p.screen
       case Playing => 0 <= p.index < p.cached
       case Won => p.index == p.cached && totalLevels <= p.index
       case Lost(h) => p.index == -1 && h == p.cached
  }

  /** `BuildLevel(index)`: an index past the end of the cache generates and appends one map. */
  function Build(p: Progress): (q: Progress)
    requires 0 <= p.index
    ensures q.index == p.index && q.screen == p.screen
    ensures p.index < p.cached ==> q == p
    ensures p.index <= p.cached ==> q.cached == Max(p.cached, p.index + 1)
  {
    if p.index > p.cached - 1 then p.(cached := p.cached + 1) else p
  }

  /** `Start`: an empty cache at index 0, then level 0 is built. */
  function Initial(): (p: Progress)
    ensures p.index == 0 && p.cached == 1 && p.screen == Playing
  {
    Build(Progress(0, 0, Playing))
  }

  /** `AdvanceToNextLevel`: one level up; at `totalLevels` the game is won and nothing is built. */
  function Advance(p: Progress, totalLevels: int): (q: Progress)
    requires Inv(p, totalLevels) && p.screen == Playing
    ensures Inv(q, totalLevels)
    ensures q.index == p.index + 1
    ensures q.screen == Won <==> p.index + 1 >= totalLevels
    ensures q.screen == Won ==> q.cached == p.cached
    ensures q.screen == Playing ==> q.cached == Max(p.cached, q.index + 1)
  {
    var next := p.(index := p.index + 1);
    if next.index >= totalLevels then next.(screen := Won) else Build(next)
  }

  /** `BackToPreviousLevel`: one level down; below 0 the game is lost and nothing is built. */
  function Back(p: Progress, totalLevels: int): (q: Progress)
    requires Inv(p, totalLevels) && p.screen == Playing
    ensures Inv(q, totalLevels)
    ensures q.index == p.index - 1
    ensures q.screen.Lost? <==> p.index == 0
    ensures q.cached == p.cached
  {
    var prev := p.(index := p.index - 1);
    if prev.index < 0 then prev.(screen := Lost(prev.cached)) else Build(prev)
  }

  /** The level controller's answer to what a landing tile asks for. */
  function Respond(p: Progress, e: TileEvent, totalLevels: int): (q: Progress)
    requires Inv(p, totalLevels) && p.screen == Playing
    ensures Inv(q, totalLevels)
  {
    match e
    case NoTransition => p
    case FallBack => Back(p, totalLevels)
    case NextLevel => Advance(p, totalLevels)
  }

  /** A sequence of tile events, answered one by one until an end screen comes up. */
  function Run(p: Progress, events: seq<TileEvent>, totalLevels: int): (q: Progress)
    requires Inv(p, totalLevels)
    ensures Inv(q, totalLevels)
    ensures q.cached >= p.cached
    decreases |events|
  {
    if events == [] || p.screen != Playing then p
    else Run(Respond(p, events[0], totalLevels), events[1..], totalLevels)
  }

  /** The highest level index played during a run (the index of a playing state). */
  function Peak(p: Progress, events: seq<TileEvent>, totalLevels: int): (h: int)
    requires Inv(p, totalLevels) && p.screen == Playing
    ensures h >= p.index
    decreases |events|
  {
    if events == [] then p.index
    else
      var q := Respond(p, events[0], totalLevels);
      if q.screen == Playing then Max(p.index, Peak(q, events[1..], totalLevels)) else p.index
  }

  /** The cache holds exactly the maps of the levels up to the highest one reached. */
  lemma {:induction false} CacheTracksPeak(p: Progress, events: seq<TileEvent>, totalLevels: int)
    requires Inv(p, totalLevels) && p.screen == Playing
    ensures Run(p, events, totalLevels).cached == Max(p.cached, Peak(p, events, totalLevels) + 1)
    decreases |events|
  {
    if events != [] {
      var q := Respond(p, events[0], totalLevels);
      if q.screen == Playing {
        CacheTracksPeak(q, events[1..], totalLevels);
      }
    }
  }

  /** On a loss the highscore shown is the highest level number reached (index + 1). */
  lemma HighscoreIsHighestLevel(events: seq<TileEvent>, totalLevels: int)
    ensures Run(Initial(), events, totalLevels).screen.Lost? ==>
              Run(Initial(), events, totalLevels).screen.highscore == Peak(Initial(), events, totalLevels) + 1
  {
    CacheTracksPeak(Initial(), events, totalLevels);
  }

  /** A win comes only after every level has been generated and cached. */
  lemma WinCachesEveryLevel(events: seq<TileEvent>, totalLevels: int)
    ensures Run(Initial(), events, totalLevels).screen == Won ==>
              Run(Initial(), events, totalLevels).cached == Max(1, totalLevels)
  {
  }
}
