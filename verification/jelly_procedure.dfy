/** The demo turn procedure: one hard-coded level, swipe input for the player
    jelly 100, one slide per turn, one point of damage to whatever jelly the
    slide ran into, and a scripted enemy turn that slides jelly 200 left.

    Animation is reduced to its observable effect: starting a move leaves a
    pending completion (when the mover has a visual entity), and completing it
    runs the hit callback and then the move-complete handler, in that order. */
module JellyProcedure {
  import opened Wrappers
  import opened JellyMap
  import opened Directions

  const PlayerId: int := 100
  const EnemyId: int := 200
  /** Damage a hit deals. */
  const BaseDamage: int := 1
  /** Squared swipe threshold: a drag counts when longer than 50 pixels. */
  const SwipeThresholdSq: int := 2500

  const DemoMap: Grid := [
    [1, 1, 1, 1, 1, 1],
    [1, 0, 0, 0, 0, 1],
    [1, 0, 2, 0, 3, 1],
    [1, 0, 4, 0, 0, 1],
    [1, 0, 0, 0, 0, 1],
    [1, 1, 1, 1, 1, 1]
  ]

  datatype Procedure = Procedure(
    board: Board,
    isPlayerTurn: bool,
    isAnimating: bool,
    touching: bool,
    touchX: int,
    touchY: int,
    pending: Option<SlideResult>,   // slide whose move animation has not finished
    enemyScheduled: bool)            // the delayed enemy turn has been started

  /** One frame of mouse input, in whole pixels. */
  datatype Frame = Frame(buttonDown: bool, buttonUp: bool, mouseX: int, mouseY: int)

  predicate Ready(p: Procedure) {
    CoversBoard(p.board.grid) && Has(p.board.entities, PlayerId)
  }

  /** `OnEnter`: installs the demo level with the player at (2, 2) and the
      enemy at (4, 2) and hands the turn to the player; touch tracking and any
      animation still in flight are left as they were. */
  function OnEnter(p: Procedure): (q: Procedure)
    ensures q.board.grid == DemoMap && Ready(q)
    ensures Find(q.board.entities, PlayerId) == Some(JellyData(PlayerId, PlayerType, 2, 2, InitialHp))
    ensures Find(q.board.entities, EnemyId) == Some(JellyData(EnemyId, EnemyType, 4, 2, InitialHp))
    ensures forall id :: id != PlayerId && id != EnemyId ==> !Has(q.board.entities, id)
    ensures q.isPlayerTurn && !q.isAnimating
    ensures q.touching == p.touching && q.pending == p.pending
  {
    var b := InitLevel(DemoMap);
    var es := AddEntity(AddEntity(b.entities, PlayerId, PlayerType, 2, 2), EnemyId, EnemyType, 4, 2);
    p.(board := b.(entities := es), isPlayerTurn := true, isAnimating := false)
  }

  /** A drag is a swipe when its length exceeds 50 pixels. */
  predicate IsSwipe(ddx: int, ddy: int) {
    ddx * ddx + ddy * ddy > SwipeThresholdSq
  }

  /** The unit direction of a swipe: horizontal when the horizontal extent is
      strictly larger, vertical otherwise, pointing the way the finger moved. */
  function SwipeDirection(ddx: int, ddy: int): (d: Vec)
    requires IsSwipe(ddx, ddy)
    ensures IsUnit(d.0, d.1)
    ensures d.0 != 0 <==> Abs(ddx) > Abs(ddy)
    ensures Dot(d, (ddx, ddy)) > 0
  {
    DominantDirection((ddx, ddy))
  }

  /** `ProcessTurn`: locks input, slides the mover and writes the final cell
      into its record before any animation; the hit is settled later, when
      the move animation completes, which only happens if the mover has a
      visual entity. */
  function ProcessTurn(p: Procedure, id: int, dx: int, dy: int, hasVisual: bool): (q: Procedure)
    requires CoversBoard(p.board.grid) && Has(p.board.entities, id) && IsUnit(dx, dy)
    ensures q.isAnimating
    ensures var d := Find(p.board.entities, id).value;
      var r := CalculateSlide(p.board, d.x, d.y, dx, dy, id);
      && Find(q.board.entities, id) == Some(d.(x := r.finalX, y := r.finalY))
      && q.pending == (if hasVisual then Some(r) else None)
    ensures forall other :: other != id ==> Find(q.board.entities, other) == Find(p.board.entities, other)
    ensures |q.board.entities| == |p.board.entities|
    ensures forall j :: 0 <= j < |q.board.entities| ==> q.board.entities[j].id == p.board.entities[j].id
    ensures q.board.grid == p.board.grid
    ensures q.isPlayerTurn == p.isPlayerTurn && q.touching == p.touching
    ensures q.enemyScheduled == p.enemyScheduled
  {
    var d := Find(p.board.entities, id).value;
    var r := CalculateSlide(p.board, d.x, d.y, dx, dy, id);
    p.(isAnimating := true,
       board := p.board.(entities := SetPosition(p.board.entities, id, r.finalX, r.finalY)),
       pending := if hasVisual then Some(r) else None)
  }

  /** `HandleInput`: a press records the start point; a release after a press
      ends the drag and, if it was a swipe, moves the player. */
  function HandleInput(p: Procedure, f: Frame, hasVisual: bool): (q: Procedure)
    requires Ready(p)
    ensures f.buttonDown ==> q == p.(touching := true, touchX := f.mouseX, touchY := f.mouseY)
    ensures !f.buttonDown && !(f.buttonUp && p.touching) ==> q == p
    ensures !f.buttonDown && f.buttonUp && p.touching ==>
      var ddx, ddy := f.mouseX - p.touchX, f.mouseY - p.touchY;
      && !q.touching
      && (IsSwipe(ddx, ddy) ==>
            var d := SwipeDirection(ddx, ddy);
            q == ProcessTurn(p.(touching := false), PlayerId, d.0, d.1, hasVisual))
      && (!IsSwipe(ddx, ddy) ==> q == p.(touching := false))
  {
    if f.buttonDown then
      p.(touching := true, touchX := f.mouseX, touchY := f.mouseY)
    else if f.buttonUp && p.touching then
      var released := p.(touching := false);
      var ddx, ddy := f.mouseX - p.touchX, f.mouseY - p.touchY;
      if IsSwipe(ddx, ddy) then
        var d := SwipeDirection(ddx, ddy);
        ProcessTurn(released, PlayerId, d.0, d.1, hasVisual)
      else released
    else p
  }

  /** `OnUpdate`: input is read only while nothing is animating and it is the
      player's turn. */
  function OnUpdate(p: Procedure, f: Frame, hasVisual: bool): (q: Procedure)
    requires Ready(p)
    ensures (p.isAnimating || !p.isPlayerTurn) ==> q == p
    ensures (!p.isAnimating && p.isPlayerTurn) ==> q == HandleInput(p, f, hasVisual)
  {
    if p.isAnimating || !p.isPlayerTurn then p else HandleInput(p, f, hasVisual)
  }

  /** `OnJellyMoveComplete`: unlocks input and passes the turn; passing it to
      the enemy starts the delayed enemy turn. */
  function OnJellyMoveComplete(p: Procedure): (q: Procedure)
    ensures !q.isAnimating
    ensures q.isPlayerTurn == !p.isPlayerTurn
    ensures q.enemyScheduled == (p.isPlayerTurn || p.enemyScheduled)
    ensures q.board == p.board && q.pending == p.pending
  {
    if p.isPlayerTurn then p.(isAnimating := false, isPlayerTurn := false, enemyScheduled := true)
    else p.(isAnimating := false, isPlayerTurn := true)
  }

  /** The end of a move animation: the hit callback deals exactly 1 damage to
      the jelly that was run into (a cracker hit changes nothing), then the
      move-complete handler runs. Without a pending move nothing happens. */
  function CompleteMove(p: Procedure): (q: Procedure)
    ensures p.pending.None? ==> q == p
    ensures p.pending.Some? ==>
      var r := p.pending.value;
      && q.pending.None?
      && q.board.grid == p.board.grid
      && (r.hitEntityId != NoEntity && Has(p.board.entities, r.hitEntityId) ==>
            var before := Find(p.board.entities, r.hitEntityId).value;
            Find(q.board.entities, r.hitEntityId) == Some(before.(hp := before.hp - BaseDamage)))
      && (forall other :: other != r.hitEntityId ==>
            Find(q.board.entities, other) == Find(p.board.entities, other))
      && (r.hitEntityId == NoEntity ==> q.board.entities == p.board.entities)
      && |q.board.entities| == |p.board.entities|
      && (forall j :: 0 <= j < |q.board.entities| ==> q.board.entities[j].id == p.board.entities[j].id)
      && !q.isAnimating && q.isPlayerTurn == !p.isPlayerTurn
      && q.enemyScheduled == (p.isPlayerTurn || p.enemyScheduled)
      && q.touching == p.touching && q.touchX == p.touchX && q.touchY == p.touchY
  {
    match p.pending
    case None => p
    case Some(r) =>
      var es := if r.hitEntityId != NoEntity then ApplyDamage(p.board.entities, r.hitEntityId, BaseDamage)
                else p.board.entities;
      OnJellyMoveComplete(p.(board := p.board.(entities := es), pending := None))
  }

  /** `EnemyTurnCoroutine`, once its delay has passed: slides jelly 200 left. */
  function RunEnemyTurn(p: Procedure, hasVisual: bool): (q: Procedure)
    requires CoversBoard(p.board.grid)
    requires p.enemyScheduled ==> Has(p.board.entities, EnemyId)
    ensures !p.enemyScheduled ==> q == p
    ensures p.enemyScheduled ==>
      q == ProcessTurn(p.(enemyScheduled := false), EnemyId, -1, 0, hasVisual)
  {
    if p.enemyScheduled then ProcessTurn(p.(enemyScheduled := false), EnemyId, -1, 0, hasVisual)
    else p
  }

  /** A mover without a visual entity never completes its move: input stays
    * locked for good, whatever frames arrive. */
  lemma NoVisualLocksInput(p: Procedure, id: int, dx: int, dy: int, f: Frame, hasVisual: bool)
    requires Ready(p) && Has(p.board.entities, id) && IsUnit(dx, dy)
    ensures var q := ProcessTurn(p, id, dx, dy, false);
      Ready(q) && CompleteMove(q) == q && OnUpdate(q, f, hasVisual) == q
  {
    var q := ProcessTurn(p, id, dx, dy, false);
    if id != PlayerId {
      assert Find(q.board.entities, PlayerId) == Find(p.board.entities, PlayerId);
    }
  }

  /** In the demo level a swipe to the right stops the player at (3, 2)
      against enemy 200. */
  lemma DemoSlideRightHitsEnemy(p: Procedure)
    ensures var b := OnEnter(p).board;
      CalculateSlide(b, 2, 2, 1, 0, PlayerId)
        == DefaultResult.(finalX := 3, finalY := 2, hitEntityId := EnemyId)
  {
    var b := OnEnter(p).board;
    assert GetEntityAt(b.entities, 3, 2) == NoEntity;
    assert GetEntityAt(b.entities, 4, 2) == EnemyId;
    assert StopAt(b, 2, 2, 1, 0, PlayerId, 1).Open?;
    assert StopAt(b, 2, 2, 1, 0, PlayerId, 2) == Blocker(EnemyId);
    SlideLengthUnique(b, 2, 2, 1, 0, PlayerId, 1);
  }

  /** In the demo level a swipe up the grid (direction (0, 1)) does not move
      the player: the cracker at (2, 3) stops it and is reported. */
  lemma DemoSlideIntoCracker(p: Procedure)
    ensures var b := OnEnter(p).board;
      CalculateSlide(b, 2, 2, 0, 1, PlayerId)
        == DefaultResult.(finalX := 2, finalY := 2, hitWallType := Cracker, hitWallX := 2, hitWallY := 3)
  {
    var b := OnEnter(p).board;
    assert StopAt(b, 2, 2, 0, 1, PlayerId, 1) == CrackerWall;
    SlideLengthUnique(b, 2, 2, 0, 1, PlayerId, 0);
  }

  /** After a swipe to the right in the demo level and the end of its
      animation, the player stands at (3, 2), enemy 200 is down to 2 hp and the
      enemy's turn is scheduled. */
  lemma DemoPlayerMove(p: Procedure)
    requires p.pending.None? && !p.touching && !p.enemyScheduled
    ensures var p1 := OnUpdate(OnEnter(p), Frame(true, false, 0, 0), true);
      var p3 := CompleteMove(OnUpdate(p1, Frame(false, true, 100, 0), true));
      && p3.board == Board(DemoMap, [JellyData(PlayerId, PlayerType, 3, 2, 3), JellyData(EnemyId, EnemyType, 4, 2, 2)])
      && p3.enemyScheduled && !p3.isPlayerTurn && !p3.isAnimating && p3.pending.None?
  {
    var p0 := OnEnter(p);
    assert p0.board.entities == [JellyData(PlayerId, PlayerType, 2, 2, 3), JellyData(EnemyId, EnemyType, 4, 2, 3)];
    var p1 := OnUpdate(p0, Frame(true, false, 0, 0), true);
    var p2 := OnUpdate(p1, Frame(false, true, 100, 0), true);
    assert SwipeDirection(100, 0) == (1, 0);
    DemoSlideRightHitsEnemy(p);
    assert p2.board.entities[0] == JellyData(PlayerId, PlayerType, 3, 2, 3);
    assert p2.board.entities[1] == JellyData(EnemyId, EnemyType, 4, 2, 3);
    var p3 := CompleteMove(p2);
    assert p3.board.entities[0] == JellyData(PlayerId, PlayerType, 3, 2, 3);
    assert p3.board.entities[1] == JellyData(EnemyId, EnemyType, 4, 2, 2);
  }

  /** With the player at (3, 2), enemy 200 at (4, 2) cannot move left: the
      player blocks it and is reported as hit. */
  lemma DemoSlideLeftHitsPlayer(b: Board)
    requires b == Board(DemoMap, [JellyData(PlayerId, PlayerType, 3, 2, 3), JellyData(EnemyId, EnemyType, 4, 2, 2)])
    ensures CalculateSlide(b, 4, 2, -1, 0, EnemyId)
      == DefaultResult.(finalX := 4, finalY := 2, hitEntityId := PlayerId)
  {
    assert GetEntityAt(b.entities, 3, 2) == PlayerId;
    assert StopAt(b, 4, 2, -1, 0, EnemyId, 1) == Blocker(PlayerId);
    SlideLengthUnique(b, 4, 2, -1, 0, EnemyId, 0);
  }

  /** From the board the player's move leaves, the scheduled enemy turn slides
      200 left into the player, which drops to 2 hp, and the turn comes back. */
  lemma DemoEnemyMove(q: Procedure)
    requires q.board == Board(DemoMap, [JellyData(PlayerId, PlayerType, 3, 2, 3), JellyData(EnemyId, EnemyType, 4, 2, 2)])
    requires q.enemyScheduled && !q.isPlayerTurn
    ensures var p5 := CompleteMove(RunEnemyTurn(q, true));
      && p5.board.entities == [JellyData(PlayerId, PlayerType, 3, 2, 2), JellyData(EnemyId, EnemyType, 4, 2, 2)]
      && p5.isPlayerTurn && !p5.isAnimating && !p5.enemyScheduled
  {
    DemoSlideLeftHitsPlayer(q.board);
    var p4 := RunEnemyTurn(q, true);
    assert p4.board.entities[0] == JellyData(PlayerId, PlayerType, 3, 2, 3);
    assert p4.board.entities[1] == JellyData(EnemyId, EnemyType, 4, 2, 2);
    var p5 := CompleteMove(p4);
    assert p5.board.entities[0] == JellyData(PlayerId, PlayerType, 3, 2, 2);
    assert p5.board.entities[1] == JellyData(EnemyId, EnemyType, 4, 2, 2);
  }

  /** One full round of the demo: the player swipes right and bumps enemy 200
      (which drops to 2 hp), the turn passes to the enemy, the enemy slides
      left into the player (who drops to 2 hp), and the turn comes back. */
  lemma DemoRound(p: Procedure)
    requires p.pending.None? && !p.touching && !p.enemyScheduled
    ensures var p0 := OnEnter(p);
      var p1 := OnUpdate(p0, Frame(true, false, 0, 0), true);
      var p2 := OnUpdate(p1, Frame(false, true, 100, 0), true);
      var p3 := CompleteMove(p2);
      var p4 := RunEnemyTurn(p3, true);
      var p5 := CompleteMove(p4);
      && p3.enemyScheduled && !p3.isPlayerTurn
      && Find(p3.board.entities, PlayerId) == Some(JellyData(PlayerId, PlayerType, 3, 2, 3))
      && Find(p3.board.entities, EnemyId) == Some(JellyData(EnemyId, EnemyType, 4, 2, 2))
      && p5.isPlayerTurn && !p5.isAnimating && !p5.enemyScheduled
      && Find(p5.board.entities, PlayerId) == Some(JellyData(PlayerId, PlayerType, 3, 2, 2))
      && Find(p5.board.entities, EnemyId) == Some(JellyData(EnemyId, EnemyType, 4, 2, 2))
  {
    var p1 := OnUpdate(OnEnter(p), Frame(true, false, 0, 0), true);
    var p3 := CompleteMove(OnUpdate(p1, Frame(false, true, 100, 0), true));
    DemoPlayerMove(p);
    DemoEnemyMove(p3);
    var p5 := CompleteMove(RunEnemyTurn(p3, true));
    assert IndexOf(p3.board.entities, EnemyId) == 1;
    assert IndexOf(p5.board.entities, EnemyId) == 1;
  }
}
