/** The map manager of the Jelly game: a 6x6 integer grid, an insertion-ordered
    store of jelly records, and the slide resolver that walks an entity across
    the grid until it meets the edge, a wall, a cracker wall or another living
    jelly.

    The store is a sequence rather than a map because the source looks up the
    occupant of a cell by enumerating a dictionary that is only ever added to
    or cleared, which visits records in insertion order; the first living
    record standing on the cell wins. */
module JellyMap {
  import opened Wrappers

  /** Side length the slide resolver checks against, whatever the grid holds. */
  const Size: int := 6

  // Cell codes of the grid.
  const EmptyCell: int := 0
  const HardWall: int := 1
  const PlayerSpawn: int := 2
  const EnemySpawn: int := 3
  const Cracker: int := 4

  // Entity type codes.
  const PlayerType: int := 0
  const EnemyType: int := 1

  /** Id meaning "no entity" in lookups and slide results. */
  const NoEntity: int := -1
  /** Hit points every record starts with. */
  const InitialHp: int := 3

  datatype JellyData = JellyData(id: int, kind: int, x: int, y: int, hp: int) {
    predicate IsDead() { hp <= 0 }
  }

  type Grid = seq<seq<int>>
  type Store = seq<JellyData>

  datatype Board = Board(grid: Grid, entities: Store)

  /** The outcome of one slide. Fields left untouched by the resolver keep the
      defaults of `DefaultResult`. */
  datatype SlideResult = SlideResult(
    finalX: int, finalY: int,
    hitEntityId: int,
    hitWallType: int, hitWallX: int, hitWallY: int)

  const DefaultResult := SlideResult(0, 0, NoEntity, 0, -1, -1)

  // ---------------------------------------------------------------------------
  // Entity store

  predicate UniqueIds(es: Store) {
    forall i, j :: 0 <= i < j < |es| ==> es[i].id != es[j].id
  }

  /** Position of the first record with the given id, or |es| when none has it. */
  function IndexOf(es: Store, id: int): (i: nat)
    ensures i <= |es|
    ensures i < |es| ==> es[i].id == id
    ensures forall j :: 0 <= j < i ==> es[j].id != id
  {
    if |es| == 0 then 0
    else if es[0].id == id then 0
    else 1 + IndexOf(es[1..], id)
  }

  /** The ids of a store, in store order. */
  function Ids(es: Store): (ids: seq<int>)
    ensures |ids| == |es|
    ensures forall j {:trigger ids[j]} :: 0 <= j < |es| ==> ids[j] == es[j].id
  {
    seq(|es|, j requires 0 <= j < |es| => es[j].id)
  }

  predicate Has(es: Store, id: int) {
    IndexOf(es, id) < |es|
  }

  function Find(es: Store, id: int): Option<JellyData> {
    var i := IndexOf(es, id);
    if i < |es| then Some(es[i]) else None
  }

  /** `IndexOf` is the unique position satisfying its own contract. */
  lemma IndexOfIs(es: Store, id: int, i: nat)
    requires i <= |es|
    requires i < |es| ==> es[i].id == id
    requires forall j :: 0 <= j < i ==> es[j].id != id
    ensures IndexOf(es, id) == i
  {
  }

  /** Two stores whose records carry the same ids at the same positions locate
      every id at the same index. */
  lemma SameIdsSameIndex(es: Store, fs: Store, id: int)
    requires |es| == |fs|
    requires forall j :: 0 <= j < |es| ==> es[j].id == fs[j].id
    ensures IndexOf(es, id) == IndexOf(fs, id)
  {
    IndexOfIs(fs, id, IndexOf(es, id));
  }

  /** With unique ids, every record is what its id finds. */
  lemma FindMember(es: Store, j: int)
    requires UniqueIds(es) && 0 <= j < |es|
    ensures Find(es, es[j].id) == Some(es[j])
  {
    IndexOfIs(es, es[j].id, j);
  }

  /** Replaces the record of `d.id` by `d`; the store is unchanged when no
      record has that id. Ids keep their positions. */
  function Update(es: Store, d: JellyData): (r: Store)
    ensures |r| == |es|
    ensures forall j :: 0 <= j < |r| ==> r[j].id == es[j].id
    ensures Has(es, d.id) ==> Find(r, d.id) == Some(d)
    ensures !Has(es, d.id) ==> r == es
    ensures forall other :: other != d.id ==> Find(r, other) == Find(es, other)
  {
    var i := IndexOf(es, d.id);
    if i < |es| then
      var r := es[i := d];
      assert forall other :: IndexOf(r, other) == IndexOf(es, other) by {
        forall other ensures IndexOf(r, other) == IndexOf(es, other) {
          SameIdsSameIndex(r, es, other);
        }
      }
      r
    else es
  }

  /** Adding a record for a new id appends it; other ids are still found where
      they were. */
  lemma AppendKeepsOthers(es: Store, d: JellyData, other: int)
    requires !Has(es, d.id)
    ensures Has(es + [d], d.id) && Find(es + [d], d.id) == Some(d)
    ensures other != d.id ==> Find(es + [d], other) == Find(es, other)
  {
    var r := es + [d];
    IndexOfIs(r, d.id, |es|);
    if other != d.id {
      var c := IndexOf(es, other);
      if c < |es| {
        IndexOfIs(r, other, c);
      } else {
        IndexOfIs(r, other, |r|);
      }
    }
  }

  /** `MapManager.AddEntity`: stores a fresh record with 3 hit points under
      `id`, replacing any record the id already had. */
  function AddEntity(es: Store, id: int, kind: int, x: int, y: int): (r: Store)
    ensures Find(r, id) == Some(JellyData(id, kind, x, y, InitialHp))
    ensures forall other :: other != id ==> Find(r, other) == Find(es, other)
    ensures Has(es, id) ==> Ids(r) == Ids(es)
    ensures !Has(es, id) ==> r == es + [JellyData(id, kind, x, y, InitialHp)]
    ensures UniqueIds(es) ==> UniqueIds(r)
  {
    var d := JellyData(id, kind, x, y, InitialHp);
    if Has(es, id) then Update(es, d)
    else
      var r := es + [d];
      assert forall other :: other != id ==> Find(r, other) == Find(es, other) by {
        forall other | other != id ensures Find(r, other) == Find(es, other) {
          AppendKeepsOthers(es, d, other);
        }
      }
      AppendKeepsOthers(es, d, id);
      r
  }

  /** `MapManager.ApplyDamage`: a known entity loses exactly `dmg` hit points,
      every other record is untouched; an unknown id changes nothing. */
  function ApplyDamage(es: Store, id: int, dmg: int): (r: Store)
    ensures !Has(es, id) ==> r == es
    ensures Has(es, id) ==>
      Find(r, id) == Some(Find(es, id).value.(hp := Find(es, id).value.hp - dmg))
    ensures forall other :: other != id ==> Find(r, other) == Find(es, other)
    ensures Ids(r) == Ids(es)
    ensures UniqueIds(es) ==> UniqueIds(r)
  {
    match Find(es, id)
    case None => es
    case Some(d) => Update(es, d.(hp := d.hp - dmg))
  }

  /** The write of a record's coordinates after a slide (the caller must know the id). */
  function SetPosition(es: Store, id: int, x: int, y: int): (r: Store)
    requires Has(es, id)
    ensures Find(r, id) == Some(Find(es, id).value.(x := x, y := y))
    ensures forall other :: other != id ==> Find(r, other) == Find(es, other)
    ensures Ids(r) == Ids(es)
    ensures UniqueIds(es) ==> UniqueIds(r)
  {
    var d := Find(es, id).value;
    Update(es, d.(x := x, y := y))
  }

  /** The write of a record's hit points (the caller must know the id). */
  function SetHp(es: Store, id: int, hp: int): (r: Store)
    requires Has(es, id)
    ensures Find(r, id) == Some(Find(es, id).value.(hp := hp))
    ensures forall other :: other != id ==> Find(r, other) == Find(es, other)
    ensures Ids(r) == Ids(es)
    ensures UniqueIds(es) ==> UniqueIds(r)
  {
    var d := Find(es, id).value;
    Update(es, d.(hp := hp))
  }

  predicate LivingAt(d: JellyData, x: int, y: int) {
    !d.IsDead() && d.x == x && d.y == y
  }

  /** Position of the first living record standing on (x, y), or |es|. */
  function FirstLivingAt(es: Store, x: int, y: int): (i: nat)
    ensures i <= |es|
    ensures i < |es| ==> LivingAt(es[i], x, y)
    ensures forall j :: 0 <= j < i ==> !LivingAt(es[j], x, y)
  {
    if |es| == 0 then 0
    else if LivingAt(es[0], x, y) then 0
    else 1 + FirstLivingAt(es[1..], x, y)
  }

  /** `MapManager.GetEntityAt`: the id of the first living record on (x, y) in
      insertion order, or -1. Dead records are never reported. */
  function GetEntityAt(es: Store, x: int, y: int): (r: int)
    ensures (forall j :: 0 <= j < |es| ==> !LivingAt(es[j], x, y)) ==> r == NoEntity
    ensures r != NoEntity ==>
      exists j :: 0 <= j < |es| && es[j].id == r && LivingAt(es[j], x, y)
    ensures (forall j :: 0 <= j < |es| ==> es[j].id != NoEntity) ==>
      (r == NoEntity <==> forall j :: 0 <= j < |es| ==> !LivingAt(es[j], x, y))
    ensures (exists j :: 0 <= j < |es| && LivingAt(es[j], x, y)) ==>
      exists j :: 0 <= j < |es| && es[j].id == r && LivingAt(es[j], x, y) &&
        forall i :: 0 <= i < j ==> !LivingAt(es[i], x, y)
  {
    var i := FirstLivingAt(es, x, y);
    if i < |es| then es[i].id else NoEntity
  }

  /** A dead record is invisible to cell lookups: whatever `GetEntityAt`
      reports is a record that is alive and stands on the cell. */
  lemma DeadNeverReported(es: Store, x: int, y: int)
    requires UniqueIds(es)
    ensures var r := GetEntityAt(es, x, y);
      r != NoEntity ==> Has(es, r) && !Find(es, r).value.IsDead() && Find(es, r).value.x == x && Find(es, r).value.y == y
  {
    var r := GetEntityAt(es, x, y);
    if r != NoEntity {
      var j :| 0 <= j < |es| && es[j].id == r && LivingAt(es[j], x, y);
      FindMember(es, j);
    }
  }

  /** `MapManager.InitLevel`: installs the grid and empties the store. */
  function InitLevel(grid: Grid): (b: Board)
    ensures b.grid == grid
    ensures forall id :: !Has(b.entities, id)
    ensures UniqueIds(b.entities)
    ensures forall x, y :: GetEntityAt(b.entities, x, y) == NoEntity
  {
    Board(grid, [])
  }

  // ---------------------------------------------------------------------------
  // Slide resolution

  /** The grid covers every cell the resolver may read. */
  predicate CoversBoard(g: Grid) {
    |g| >= Size && forall y :: 0 <= y < Size ==> |g[y]| >= Size
  }

  predicate InBounds(x: int, y: int) {
    0 <= x < Size && 0 <= y < Size
  }

  /** One of the four unit directions. */
  predicate IsUnit(dx: int, dy: int) {
    || (dx == 0 && (dy == 1 || dy == -1))
    || (dy == 0 && (dx == 1 || dx == -1))
  }

  /** Coordinate `c` moved `i` steps along the unit component `d`. */
  function Along(c: int, d: int, i: int): int {
    if d > 0 then c + i else if d < 0 then c - i else c
  }

  lemma AlongIsScaled(c: int, d: int, i: int)
    requires -1 <= d <= 1
    ensures Along(c, d, i) == c + i * d
  {
  }

  /** Why a slide cannot enter a cell, checked in the resolver's order:
      board edge, hard wall, cracker wall, another living jelly. */
  datatype Stop = Edge | Wall | CrackerWall | Blocker(id: int) | Open

  function Classify(b: Board, x: int, y: int, self: int): (s: Stop)
    requires CoversBoard(b.grid)
    ensures s.Edge? <==> !InBounds(x, y)
    ensures s.Wall? <==> InBounds(x, y) && b.grid[y][x] == HardWall
    ensures s.CrackerWall? <==> InBounds(x, y) && b.grid[y][x] == Cracker
    ensures s.Blocker? <==>
      && InBounds(x, y) && b.grid[y][x] != HardWall && b.grid[y][x] != Cracker
      && GetEntityAt(b.entities, x, y) != NoEntity && GetEntityAt(b.entities, x, y) != self
    ensures s.Blocker? ==> s.id == GetEntityAt(b.entities, x, y) && s.id != NoEntity && s.id != self
    ensures s.Open? ==> InBounds(x, y) && b.grid[y][x] != HardWall && b.grid[y][x] != Cracker
  {
    if !InBounds(x, y) then Edge
    else if b.grid[y][x] == HardWall then Wall
    else if b.grid[y][x] == Cracker then CrackerWall
    else
      var id := GetEntityAt(b.entities, x, y);
      if id != NoEntity && id != self then Blocker(id) else Open
  }

  /** What the i-th cell along the ray from (x, y) holds for `self`. */
  function StopAt(b: Board, x: int, y: int, dx: int, dy: int, self: int, i: int): Stop
    requires CoversBoard(b.grid)
  {
    Classify(b, Along(x, dx, i), Along(y, dy, i), self)
  }

  /** Every cell from the first to the k-th along the ray is open. */
  predicate ClearPath(b: Board, x: int, y: int, dx: int, dy: int, self: int, k: nat)
    requires CoversBoard(b.grid)
  {
    forall i :: 1 <= i <= k ==> StopAt(b, x, y, dx, dy, self, i).Open?
  }

  /** Steps left before a walk from (x, y) along (dx, dy) must leave the board. */
  function Headroom(x: int, y: int, dx: int, dy: int): int {
    if dx > 0 then Size - x
    else if dx < 0 then x + 1
    else if dy > 0 then Size - y
    else y + 1
  }

  /** Number of cells a slide advances: the longest open run along the ray. */
  function SlideLength(b: Board, x: int, y: int, dx: int, dy: int, self: int): (k: nat)
    requires CoversBoard(b.grid)
    requires IsUnit(dx, dy)
    ensures ClearPath(b, x, y, dx, dy, self, k)
    ensures !StopAt(b, x, y, dx, dy, self, k + 1).Open?
    decreases Headroom(x, y, dx, dy)
  {
    var nx, ny := Along(x, dx, 1), Along(y, dy, 1);
    if Classify(b, nx, ny, self).Open? then
      var k' := SlideLength(b, nx, ny, dx, dy, self);
      ClearPathExtend(b, x, y, dx, dy, self, k');
      StepShift(b, x, y, dx, dy, self, k' + 2);
      1 + k'
    else
      0
  }

  /** The ray from the next cell is the ray from (x, y) one step on. */
  lemma StepShift(b: Board, x: int, y: int, dx: int, dy: int, self: int, i: int)
    requires CoversBoard(b.grid)
    ensures StopAt(b, Along(x, dx, 1), Along(y, dy, 1), dx, dy, self, i - 1) == StopAt(b, x, y, dx, dy, self, i)
  {
    assert Along(Along(x, dx, 1), dx, i - 1) == Along(x, dx, i);
    assert Along(Along(y, dy, 1), dy, i - 1) == Along(y, dy, i);
  }

  /** An open first cell followed by a clear path from it is a clear path one
      cell longer. */
  lemma {:induction false} ClearPathExtend(b: Board, x: int, y: int, dx: int, dy: int, self: int, k: nat)
    requires CoversBoard(b.grid)
    requires StopAt(b, x, y, dx, dy, self, 1).Open?
    requires ClearPath(b, Along(x, dx, 1), Along(y, dy, 1), dx, dy, self, k)
    ensures ClearPath(b, x, y, dx, dy, self, k + 1)
  {
    forall i | 1 <= i <= k + 1
      ensures StopAt(b, x, y, dx, dy, self, i).Open?
    {
      if i > 1 {
        StepShift(b, x, y, dx, dy, self, i);
      }
    }
  }

  /** Number of cells from (x, y) to (fx, fy) along a unit direction. */
  function Steps(x: int, y: int, fx: int, fy: int): int {
    (if fx >= x then fx - x else x - fx) + (if fy >= y then fy - y else y - fy)
  }

  /** What the source promises of a slide result, independently of how it is
      computed: the final cell lies k >= 0 cells along the direction, every
      cell entered on the way is open for `self`, the next cell is closed, and
      the hit fields report a cracker wall or a living blocker exactly when that
      is what closed it, keeping their defaults otherwise. */
  predicate IsSlideOutcome(b: Board, x: int, y: int, dx: int, dy: int, self: int, r: SlideResult)
    requires CoversBoard(b.grid)
  {
    var k := Steps(x, y, r.finalX, r.finalY);
    var stop := StopAt(b, x, y, dx, dy, self, k + 1);
    && r.finalX == Along(x, dx, k) && r.finalY == Along(y, dy, k)
    && ClearPath(b, x, y, dx, dy, self, k)
    && !stop.Open?
    && (stop.CrackerWall? ==>
          r.hitWallType == Cracker
          && r.hitWallX == Along(x, dx, k + 1) && r.hitWallY == Along(y, dy, k + 1))
    && (!stop.CrackerWall? ==> r.hitWallType == 0 && r.hitWallX == -1 && r.hitWallY == -1)
    && (stop.Blocker? ==> r.hitEntityId == stop.id)
    && (!stop.Blocker? ==> r.hitEntityId == NoEntity)
  }

  /** `MapManager.CalculateSlide`: walks one cell at a time until the next cell
      is off the board, a hard wall, a cracker wall or holds another living
      jelly. */
  function CalculateSlide(b: Board, x: int, y: int, dx: int, dy: int, self: int): (r: SlideResult)
    requires CoversBoard(b.grid)
    requires IsUnit(dx, dy)
    ensures IsSlideOutcome(b, x, y, dx, dy, self, r)
    ensures Steps(x, y, r.finalX, r.finalY) == SlideLength(b, x, y, dx, dy, self)
  {
    var k := SlideLength(b, x, y, dx, dy, self);
    var fx, fy := Along(x, dx, k), Along(y, dy, k);
    var hit := DefaultResult.(finalX := fx, finalY := fy);
    assert Steps(x, y, fx, fy) == k;
    match StopAt(b, x, y, dx, dy, self, k + 1)
    case CrackerWall =>
      hit.(hitWallType := Cracker, hitWallX := Along(x, dx, k + 1), hitWallY := Along(y, dy, k + 1))
    case Blocker(id) =>
      hit.(hitEntityId := id)
    case _ =>
      hit
  }

  /** The slide length is the only length with a clear path and a closed next
      cell. */
  lemma SlideLengthUnique(b: Board, x: int, y: int, dx: int, dy: int, self: int, k: nat)
    requires CoversBoard(b.grid)
    requires IsUnit(dx, dy)
    requires ClearPath(b, x, y, dx, dy, self, k)
    requires !StopAt(b, x, y, dx, dy, self, k + 1).Open?
    ensures k == SlideLength(b, x, y, dx, dy, self)
  {
  }

  /** The outcome description pins the result down completely: any result
      meeting it is the one the resolver computes. */
  lemma SlideOutcomeUnique(b: Board, x: int, y: int, dx: int, dy: int, self: int, r: SlideResult)
    requires CoversBoard(b.grid)
    requires IsUnit(dx, dy)
    requires IsSlideOutcome(b, x, y, dx, dy, self, r)
    ensures r == CalculateSlide(b, x, y, dx, dy, self)
  {
    SlideLengthUnique(b, x, y, dx, dy, self, Steps(x, y, r.finalX, r.finalY));
  }

  /** The final cell is start + k * direction for the number of cells walked. */
  lemma SlideEndsOnRay(b: Board, x: int, y: int, dx: int, dy: int, self: int)
    requires CoversBoard(b.grid)
    requires IsUnit(dx, dy)
    ensures var r := CalculateSlide(b, x, y, dx, dy, self);
      var k := SlideLength(b, x, y, dx, dy, self);
      r.finalX == x + k * dx && r.finalY == y + k * dy
  {
    var k := SlideLength(b, x, y, dx, dy, self);
    AlongIsScaled(x, dx, k);
    AlongIsScaled(y, dy, k);
  }

  /** A slide never runs off the board: every cell entered is in bounds and is
      neither a hard wall nor a cracker; it advances at most 6 cells, at most 5
      from a cell on the board, and a slide that moves ends on the board. */
  lemma SlideStaysOnBoard(b: Board, x: int, y: int, dx: int, dy: int, self: int)
    requires CoversBoard(b.grid)
    requires IsUnit(dx, dy)
    ensures var k := SlideLength(b, x, y, dx, dy, self);
      && (forall i :: 1 <= i <= k ==>
            var cx, cy := Along(x, dx, i), Along(y, dy, i);
            InBounds(cx, cy) && b.grid[cy][cx] != HardWall && b.grid[cy][cx] != Cracker)
      && (k > 0 ==> InBounds(Along(x, dx, k), Along(y, dy, k)))
      && k <= Size
      && (InBounds(x, y) ==> k < Size)
  {
    var k := SlideLength(b, x, y, dx, dy, self);
    forall i | 1 <= i <= k
      ensures var cx, cy := Along(x, dx, i), Along(y, dy, i);
        InBounds(cx, cy) && b.grid[cy][cx] != HardWall && b.grid[cy][cx] != Cracker
    {
      assert StopAt(b, x, y, dx, dy, self, i).Open?;
    }
    if k > 0 {
      assert InBounds(Along(x, dx, 1), Along(y, dy, 1)) by {
        assert StopAt(b, x, y, dx, dy, self, 1).Open?;
      }
      assert InBounds(Along(x, dx, k), Along(y, dy, k)) by {
        assert StopAt(b, x, y, dx, dy, self, k).Open?;
      }
    }
  }

  /** A living jelly standing on a wall or cracker cell never blocks a slide:
      the wall checks run before the occupancy check. */
  lemma WallShadowsOccupant(b: Board, x: int, y: int, self: int)
    requires CoversBoard(b.grid)
    requires InBounds(x, y)
    requires b.grid[y][x] == HardWall || b.grid[y][x] == Cracker
    ensures !Classify(b, x, y, self).Blocker?
    ensures !Classify(b, x, y, self).Open?
  {
  }

  /** Spawn markers and every code other than 1 and 4 are walkable: such a cell
      with no living jelly on it is open. */
  lemma MarkersArePassable(b: Board, x: int, y: int, self: int)
    requires CoversBoard(b.grid)
    requires InBounds(x, y)
    requires b.grid[y][x] != HardWall && b.grid[y][x] != Cracker
    requires forall j :: 0 <= j < |b.entities| ==> !LivingAt(b.entities[j], x, y)
    ensures Classify(b, x, y, self).Open?
  {
  }
}
