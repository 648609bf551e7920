/** The game's top-level flow: the game state machine, level (re)loading with
  * the fixed spawn layout, and the end-of-enemy-turn decision. */
module GameMain {
  import opened Wrappers
  import opened JellyMap
  import EnemyAI

  /** The game states (the enum itself is declared outside the modelled files). */
  datatype GameState = Initializing | Ready | Loading | PlayerTurn | EnemyTurn | Win | Lose

  /** What the game fires on the event bus. */
  datatype GameEvent =
    | StateChanged(newState: GameState, oldState: GameState)
    | LevelWon(levelId: int)
    | LevelLost(levelId: int)

  datatype Game = Game(
    levelId: int,
    state: GameState,
    board: Board,
    ctrls: EnemyAI.Controllers,
    events: seq<GameEvent>)

  /** The built-in map every level id loads. */
  const DefaultMap: Grid := [
    [1, 1, 1, 1, 1, 1],
    [1, 0, 0, 0, 0, 1],
    [1, 0, 0, 0, 1, 1],
    [1, 1, 0, 0, 0, 1],
    [1, 0, 0, 0, 0, 1],
    [1, 1, 1, 1, 1, 1]
  ]

  const FirstLevel := 1
  const HeroId := 1
  const GuardId := 101
  const WallGuardId := 102

  /** The game after `Awake`: level 1, initializing, default map installed. */
  function Awake(): (g: Game)
    ensures g.levelId == FirstLevel && g.state == Initializing && g.events == []
    ensures g.board.grid == DefaultMap && forall id :: !Has(g.board.entities, id)
  {
    Game(FirstLevel, Initializing, InitLevel(DefaultMap), map[], [])
  }

  /** `GameMain.ChangeGameState`: moving to the current state does nothing;
    * otherwise the state changes and exactly one change event is fired. */
  function ChangeGameState(g: Game, s: GameState): (r: Game)
    ensures r.state == s
    ensures g.state == s ==> r == g
    ensures g.state != s ==> r.events == g.events + [StateChanged(s, g.state)]
    ensures r.levelId == g.levelId && r.board == g.board && r.ctrls == g.ctrls
  {
    if g.state == s then g
    else g.(state := s, events := g.events + [StateChanged(s, g.state)])
  }

  /** `GameMain.CheckGameStatus` with the map's win and lose checks as inputs:
    * win is checked first, lose only when there is no win. */
  function CheckGameStatus(g: Game, win: bool, lose: bool): (r: Game)
    ensures win ==>
      && r.state == Win
      && r.events == g.events + (if g.state == Win then [] else [StateChanged(Win, g.state)]) + [LevelWon(g.levelId)]
    ensures !win && lose ==>
      && r.state == Lose
      && r.events == g.events + (if g.state == Lose then [] else [StateChanged(Lose, g.state)]) + [LevelLost(g.levelId)]
    ensures !win && !lose ==> r == g
    ensures r.levelId == g.levelId && r.board == g.board && r.ctrls == g.ctrls
  {
    if win then
      var w := ChangeGameState(g, Win);
      w.(events := w.events + [LevelWon(g.levelId)])
    else if lose then
      var l := ChangeGameState(g, Lose);
      l.(events := l.events + [LevelLost(g.levelId)])
    else g
  }

  /** The decision taken once the enemies have acted: after the status check
    * the player's turn comes back only if the state is still the enemy turn. */
  function AfterEnemyActions(g: Game, win: bool, lose: bool): (r: Game)
    ensures r.state == (if win then Win else if lose then Lose
                        else if g.state == EnemyTurn then PlayerTurn else g.state)
    ensures !win && !lose && g.state != EnemyTurn ==> r == g
    ensures var c := CheckGameStatus(g, win, lose);
      r.events == c.events + (if c.state == EnemyTurn then [StateChanged(PlayerTurn, EnemyTurn)] else [])
    ensures r.levelId == g.levelId && r.board == g.board && r.ctrls == g.ctrls
  {
    var c := CheckGameStatus(g, win, lose);
    if c.state == EnemyTurn then ChangeGameState(c, PlayerTurn) else c
  }

  /** `GameMain.StartEnemyTurn`; the enemies' moves run later, elsewhere. */
  function StartEnemyTurn(g: Game): (r: Game)
    ensures r.state == EnemyTurn
    ensures r.events == g.events + (if g.state == EnemyTurn then [] else [StateChanged(EnemyTurn, g.state)])
    ensures r.levelId == g.levelId && r.board == g.board && r.ctrls == g.ctrls
  {
    ChangeGameState(g, EnemyTurn)
  }

  /** `GameMain.SpawnEntities`: the fixed player at (1, 1) and enemies at
    * (4, 4) and (4, 2), each with 3 hit points; other records stay. */
  function SpawnEntities(es: Store): (r: Store)
    ensures Find(r, HeroId) == Some(JellyData(HeroId, PlayerType, 1, 1, InitialHp))
    ensures Find(r, GuardId) == Some(JellyData(GuardId, EnemyType, 4, 4, InitialHp))
    ensures Find(r, WallGuardId) == Some(JellyData(WallGuardId, EnemyType, 4, 2, InitialHp))
    ensures forall id :: id != HeroId && id != GuardId && id != WallGuardId ==> Find(r, id) == Find(es, id)
    ensures UniqueIds(es) ==> UniqueIds(r)
  {
    var a := AddEntity(es, HeroId, PlayerType, 1, 1);
    var b := AddEntity(a, GuardId, EnemyType, 4, 4);
    AddEntity(b, WallGuardId, EnemyType, 4, 2)
  }

  /** The level map for an id: the default map, whatever the id. It is
    * exactly the 6x6 board the resolver reads, walled on all four sides. */
  function GetLevelMapData(levelId: int): (m: Grid)
    ensures m == DefaultMap
    ensures |m| == Size && forall y :: 0 <= y < Size ==> |m[y]| == Size
    ensures forall i :: 0 <= i < Size ==>
      && m[0][i] == HardWall && m[Size - 1][i] == HardWall
      && m[i][0] == HardWall && m[i][Size - 1] == HardWall
  {
    DefaultMap
  }

  /** What a finished load leaves behind, starting from `g`: level `id` on
    * the player's turn after one change event out of Loading, no enemy
    * controllers, the default map with the fixed player and two enemies and
    * no other record. */
  ghost predicate Loaded(g: Game, r: Game, id: int) {
    && r.levelId == id && r.state == PlayerTurn
    && r.events == g.events + [StateChanged(PlayerTurn, Loading)]
    && r.ctrls == map[]
    && r.board.grid == DefaultMap
    && Find(r.board.entities, HeroId) == Some(JellyData(HeroId, PlayerType, 1, 1, InitialHp))
    && Find(r.board.entities, GuardId) == Some(JellyData(GuardId, EnemyType, 4, 4, InitialHp))
    && Find(r.board.entities, WallGuardId) == Some(JellyData(WallGuardId, EnemyType, 4, 2, InitialHp))
    && (forall other :: other != HeroId && other != GuardId && other != WallGuardId ==> !Has(r.board.entities, other))
    && UniqueIds(r.board.entities)
  }

  /** `GameMain.LoadLevel`: records the id, enters Loading without an event,
    * resets the AI and the map, installs the level map, spawns the fixed
    * entities and starts the player's turn. */
  function LoadLevel(g: Game, levelId: int): (r: Game)
    ensures Loaded(g, r, levelId)
  {
    var loading := g.(levelId := levelId, state := Loading);
    var cleared := loading.(ctrls := EnemyAI.Reset(loading.ctrls), board := InitLevel(DefaultMap));
    var installed := cleared.(board := InitLevel(GetLevelMapData(levelId)));
    var spawned := installed.(board := installed.board.(entities := SpawnEntities(installed.board.entities)));
    ChangeGameState(spawned, PlayerTurn)
  }

  /** `GameMain.StartGame`: loads the current level and then reports Ready. */
  function StartGame(g: Game): (r: Game)
    ensures r.state == Ready && r.levelId == g.levelId
    ensures r.events == g.events + [StateChanged(PlayerTurn, Loading), StateChanged(Ready, PlayerTurn)]
    ensures r.ctrls == map[]
    ensures r.board == LoadLevel(g, g.levelId).board
  {
    ChangeGameState(LoadLevel(g, g.levelId), Ready)
  }

  /** `GameMain.ResetLevel`: reloads the current level. */
  function ResetLevel(g: Game): (r: Game)
    ensures Loaded(g, r, g.levelId)
  {
    LoadLevel(g, g.levelId)
  }

  /** `GameMain.NextLevel`: loads the level after the current one. */
  function NextLevel(g: Game): (r: Game)
    ensures Loaded(g, r, g.levelId + 1)
  {
    LoadLevel(g, g.levelId + 1)
  }

  /** `GameMain.RestartGame`: back to level 1. */
  function RestartGame(g: Game): (r: Game)
    ensures Loaded(g.(levelId := FirstLevel), r, FirstLevel)
  {
    LoadLevel(g.(levelId := FirstLevel), FirstLevel)
  }

  /** A level's board does not depend on the level id, nor on anything left
    * over from the previous level: every load rebuilds the same board. */
  lemma EveryLevelSameBoard(g: Game, h: Game, a: int, b: int)
    ensures LoadLevel(g, a).board == LoadLevel(h, b).board
  {
  }

  /** Win takes precedence: with a win, the lose check has no effect. */
  lemma WinPrecedence(g: Game, lose: bool)
    ensures CheckGameStatus(g, true, lose) == CheckGameStatus(g, true, false)
  {
  }

  /** Asking twice for the same state fires one event, not two. */
  lemma ChangeGameStateIdempotent(g: Game, s: GameState)
    ensures ChangeGameState(ChangeGameState(g, s), s) == ChangeGameState(g, s)
    ensures |ChangeGameState(g, s).events| <= |g.events| + 1
  {
  }

  /** A full enemy turn with no win or loss hands the turn back to the player
    * with two change events and nothing else touched. */
  lemma EnemyTurnRoundTrip(g: Game)
    requires g.state == PlayerTurn
    ensures var r := AfterEnemyActions(StartEnemyTurn(g), false, false);
      r == g.(events := g.events + [StateChanged(EnemyTurn, PlayerTurn), StateChanged(PlayerTurn, EnemyTurn)])
  {
  }

  /** Enemy 102 spawns on a hard wall of the default map, so it can never be
    * reported as the entity a slide hits: the wall check comes first. */
  lemma WallGuardNeverHit(g: Game, levelId: int, self: int)
    ensures var b := LoadLevel(g, levelId).board;
      CoversBoard(b.grid) && b.grid[2][4] == HardWall && Classify(b, 4, 2, self) == Wall
  {
  }
}
