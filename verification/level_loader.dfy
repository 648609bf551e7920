/** The level loader: turns a parsed level description into the grid and the
  * spawned entities of the map store. */
module LevelLoader {
  import opened Wrappers
  import opened JellyMap

  /** The parsed level file. JSON decoding is outside the model: a file that is
    * missing or does not parse arrives as `None`. */
  datatype LevelDataWrapper = LevelDataWrapper(levelId: int, instruction: string, mapRows: seq<seq<int>>, enemyHp: int)

  /** Id under which a level's player is stored. */
  const LevelPlayerId := 100

  /** Ids of enemies are derived from their spawn cell. */
  function EnemyIdAt(x: int, y: int): int {
    200 + x + y * 10
  }

  /** The conversion loop reads `cols` cells from every row, `cols` being the
    * first row's length: there must be a first row and no row may be shorter. */
  predicate Loadable(rows: seq<seq<int>>) {
    |rows| > 0 && forall y :: 0 <= y < |rows| ==> |rows[y]| >= |rows[0]|
  }

  /** The rectangular map copied out of the rows. */
  function ToGrid(rows: seq<seq<int>>): (g: Grid)
    requires Loadable(rows)
    ensures |g| == |rows|
    ensures forall y :: 0 <= y < |g| ==> |g[y]| == |rows[0]|
    ensures forall y, x :: 0 <= y < |g| && 0 <= x < |rows[0]| ==> g[y][x] == rows[y][x]
  {
    seq(|rows|, y requires 0 <= y < |rows| => rows[y][..|rows[0]|])
  }

  /** Every row of `g` has at least `cols` cells. */
  predicate Rect(g: Grid, cols: nat) {
    forall y :: 0 <= y < |g| ==> |g[y]| >= cols
  }

  /** The id a marker cell would spawn, if any. */
  predicate Spawns(v: int, x: int, y: int, id: int) {
    (v == PlayerSpawn && id == LevelPlayerId) || (v == EnemySpawn && id == EnemyIdAt(x, y))
  }

  /** The record a marker cell produces. */
  function SpawnRecord(v: int, x: int, y: int, hp: int): JellyData
    requires v == PlayerSpawn || v == EnemySpawn
  {
    if v == PlayerSpawn then JellyData(LevelPlayerId, PlayerType, x, y, InitialHp)
    else JellyData(EnemyIdAt(x, y), EnemyType, x, y, hp)
  }

  /** One step of the spawn loop, for the cell (x, y) holding `v`. */
  function SpawnCell(es: Store, v: int, x: int, y: int, hp: int): (r: Store)
    ensures v != PlayerSpawn && v != EnemySpawn ==> r == es
    ensures v == PlayerSpawn || v == EnemySpawn ==>
      var d := SpawnRecord(v, x, y, hp);
      Find(r, d.id) == Some(d) && forall other :: other != d.id ==> Find(r, other) == Find(es, other)
    ensures UniqueIds(es) ==> UniqueIds(r)
  {
    if v == PlayerSpawn then AddEntity(es, LevelPlayerId, PlayerType, x, y)
    else if v == EnemySpawn then
      var id := EnemyIdAt(x, y);
      SetHp(AddEntity(es, id, EnemyType, x, y), id, hp)
    else es
  }

  /** The inner loop over the first `n` cells of row `y`, left to right. */
  function SpawnRow(es: Store, row: seq<int>, y: int, n: nat, hp: int): (r: Store)
    requires n <= |row|
    ensures UniqueIds(es) ==> UniqueIds(r)
  {
    if n == 0 then es else SpawnCell(SpawnRow(es, row, y, n - 1, hp), row[n - 1], n - 1, y, hp)
  }

  /** The outer loop over the first `m` rows, top to bottom. */
  function SpawnRows(es: Store, g: Grid, m: nat, cols: nat, hp: int): (r: Store)
    requires m <= |g| && Rect(g, cols)
    ensures UniqueIds(es) ==> UniqueIds(r)
  {
    if m == 0 then es else SpawnRow(SpawnRows(es, g, m - 1, cols, hp), g[m - 1], m - 1, cols, hp)
  }

  // ---------------------------------------------------------------------------
  // What the scan leaves under one id, without the store

  /** What the scan of the first `n` cells of a row leaves under `id`: the
    * record of the last of them that spawns it, or `before` when none does. */
  function RowFind(before: Option<JellyData>, row: seq<int>, y: int, n: nat, hp: int, id: int): Option<JellyData>
    requires n <= |row|
  {
    if n == 0 then before
    else if Spawns(row[n - 1], n - 1, y, id) then Some(SpawnRecord(row[n - 1], n - 1, y, hp))
    else RowFind(before, row, y, n - 1, hp, id)
  }

  /** What the scan of the first `m` rows leaves under `id`. */
  function RowsFind(before: Option<JellyData>, g: Grid, m: nat, cols: nat, hp: int, id: int): Option<JellyData>
    requires m <= |g| && Rect(g, cols)
  {
    if m == 0 then before
    else RowFind(RowsFind(before, g, m - 1, cols, hp, id), g[m - 1], m - 1, cols, hp, id)
  }

  /** One cell of the scan, seen from one id. */
  lemma CellFind(es: Store, v: int, x: int, y: int, hp: int, id: int)
    ensures Find(SpawnCell(es, v, x, y, hp), id) ==
      if Spawns(v, x, y, id) then Some(SpawnRecord(v, x, y, hp)) else Find(es, id)
  {
    if v == PlayerSpawn || v == EnemySpawn {
      assert Spawns(v, x, y, id) <==> id == SpawnRecord(v, x, y, hp).id;
    }
  }

  /** The row loop over the store leaves under every id what `RowFind` says. */
  lemma {:induction false} RowFindIs(es: Store, row: seq<int>, y: int, n: nat, hp: int, id: int)
    requires n <= |row|
    ensures Find(SpawnRow(es, row, y, n, hp), id) == RowFind(Find(es, id), row, y, n, hp, id)
  {
    if n > 0 {
      RowFindIs(es, row, y, n - 1, hp, id);
      CellFind(SpawnRow(es, row, y, n - 1, hp), row[n - 1], n - 1, y, hp, id);
    }
  }

  /** The outer loop over the store leaves under every id what `RowsFind` says. */
  lemma {:induction false} RowsFindIs(es: Store, g: Grid, m: nat, cols: nat, hp: int, id: int)
    requires m <= |g| && Rect(g, cols)
    ensures Find(SpawnRows(es, g, m, cols, hp), id) == RowsFind(Find(es, id), g, m, cols, hp, id)
  {
    if m > 0 {
      RowsFindIs(es, g, m - 1, cols, hp, id);
      RowFindIs(SpawnRows(es, g, m - 1, cols, hp), g[m - 1], m - 1, cols, hp, id);
    }
  }

  /** A row none of whose scanned cells spawns `id` leaves it alone. */
  lemma {:induction false} RowFindKeeps(before: Option<JellyData>, row: seq<int>, y: int, n: nat, hp: int, id: int)
    requires n <= |row|
    requires forall x :: 0 <= x < n ==> !Spawns(row[x], x, y, id)
    ensures RowFind(before, row, y, n, hp, id) == before
  {
    if n > 0 {
      assert !Spawns(row[n - 1], n - 1, y, id);
      RowFindKeeps(before, row, y, n - 1, hp, id);
    }
  }

  /** The last scanned cell of a row that spawns `id` decides it. */
  lemma {:induction false} RowFindLast(before: Option<JellyData>, row: seq<int>, y: int, n: nat, hp: int, id: int, x0: nat)
    requires n <= |row| && x0 < n && Spawns(row[x0], x0, y, id)
    requires forall x :: x0 < x < n ==> !Spawns(row[x], x, y, id)
    ensures RowFind(before, row, y, n, hp, id) == Some(SpawnRecord(row[x0], x0, y, hp))
  {
    if x0 < n - 1 {
      assert !Spawns(row[n - 1], n - 1, y, id);
      RowFindLast(before, row, y, n - 1, hp, id, x0);
    }
  }

  /** Once something is under `id`, a row never removes it. */
  lemma {:induction false} RowFindKeepsSome(before: Option<JellyData>, row: seq<int>, y: int, n: nat, hp: int, id: int)
    requires n <= |row| && before.Some?
    ensures RowFind(before, row, y, n, hp, id).Some?
  {
    if n > 0 && !Spawns(row[n - 1], n - 1, y, id) {
      RowFindKeepsSome(before, row, y, n - 1, hp, id);
    }
  }

  /** A row with a scanned cell that spawns `id` leaves a record under it. */
  lemma {:induction false} RowFindGain(before: Option<JellyData>, row: seq<int>, y: int, n: nat, hp: int, id: int, x0: nat)
    requires n <= |row| && x0 < n && Spawns(row[x0], x0, y, id)
    ensures RowFind(before, row, y, n, hp, id).Some?
  {
    if x0 < n - 1 && !Spawns(row[n - 1], n - 1, y, id) {
      RowFindGain(before, row, y, n - 1, hp, id, x0);
    }
  }

  /** The record under `id`, if any, is the one a marker cell of `g`
    * produces. */
  predicate MarkerRecord(o: Option<JellyData>, g: Grid, cols: nat, hp: int)
    requires Rect(g, cols)
  {
    o.Some? ==>
      var d := o.value;
      0 <= d.y < |g| && 0 <= d.x < cols &&
      (g[d.y][d.x] == PlayerSpawn || g[d.y][d.x] == EnemySpawn) &&
      d == SpawnRecord(g[d.y][d.x], d.x, d.y, hp)
  }

  /** A row of `g` only ever puts marker records under an id. */
  lemma {:induction false} RowFindMarker(before: Option<JellyData>, g: Grid, y: nat, n: nat, cols: nat, hp: int, id: int)
    requires Rect(g, cols) && y < |g| && n <= cols
    requires MarkerRecord(before, g, cols, hp)
    ensures MarkerRecord(RowFind(before, g[y], y, n, hp, id), g, cols, hp)
  {
    if n > 0 && !Spawns(g[y][n - 1], n - 1, y, id) {
      RowFindMarker(before, g, y, n - 1, cols, hp, id);
    }
  }

  /** Rows none of whose scanned cells spawns `id` leave it alone. */
  lemma {:induction false} RowsFindKeeps(before: Option<JellyData>, g: Grid, m: nat, cols: nat, hp: int, id: int)
    requires m <= |g| && Rect(g, cols)
    requires forall y, x :: 0 <= y < m && 0 <= x < cols ==> !Spawns(g[y][x], x, y, id)
    ensures RowsFind(before, g, m, cols, hp, id) == before
  {
    if m > 0 {
      RowsFindKeeps(before, g, m - 1, cols, hp, id);
      var y := m - 1;
      forall x | 0 <= x < cols ensures !Spawns(g[y][x], x, y, id) {
      }
      RowFindKeeps(before, g[y], y, cols, hp, id);
    }
  }

  /** Cell (x, y) is scanned after cell (x0, y0). */
  predicate Later(x: int, y: int, x0: int, y0: int) {
    y > y0 || (y == y0 && x > x0)
  }

  /** In row-major order, the last scanned cell that spawns `id` decides it. */
  lemma {:induction false} RowsFindLast(before: Option<JellyData>, g: Grid, m: nat, cols: nat, hp: int, id: int, x0: nat, y0: nat)
    requires m <= |g| && Rect(g, cols)
    requires y0 < m && x0 < cols && Spawns(g[y0][x0], x0, y0, id)
    requires forall y, x :: 0 <= y < m && 0 <= x < cols && Later(x, y, x0, y0) ==> !Spawns(g[y][x], x, y, id)
    ensures RowsFind(before, g, m, cols, hp, id) == Some(SpawnRecord(g[y0][x0], x0, y0, hp))
  {
    var y := m - 1;
    var earlier := RowsFind(before, g, y, cols, hp, id);
    if y == y0 {
      forall x | x0 < x < cols ensures !Spawns(g[y][x], x, y, id) {
        assert Later(x, y, x0, y0);
      }
      RowFindLast(earlier, g[y], y, cols, hp, id, x0);
    } else {
      RowsFindLast(before, g, y, cols, hp, id, x0, y0);
      forall x | 0 <= x < cols ensures !Spawns(g[y][x], x, y, id) {
        assert Later(x, y, x0, y0);
      }
      RowFindKeeps(earlier, g[y], y, cols, hp, id);
    }
  }

  /** Rows with a scanned cell that spawns `id` leave a record under it. */
  lemma {:induction false} RowsFindGain(before: Option<JellyData>, g: Grid, m: nat, cols: nat, hp: int, id: int, x0: nat, y0: nat)
    requires m <= |g| && Rect(g, cols)
    requires y0 < m && x0 < cols && Spawns(g[y0][x0], x0, y0, id)
    ensures RowsFind(before, g, m, cols, hp, id).Some?
  {
    var y := m - 1;
    var earlier := RowsFind(before, g, y, cols, hp, id);
    if y == y0 {
      RowFindGain(earlier, g[y], y, cols, hp, id, x0);
    } else {
      RowsFindGain(before, g, y, cols, hp, id, x0, y0);
      RowFindKeepsSome(earlier, g[y], y, cols, hp, id);
    }
  }

  /** The rows of `g` only ever put marker records under an id. */
  lemma {:induction false} RowsFindMarker(before: Option<JellyData>, g: Grid, m: nat, cols: nat, hp: int, id: int)
    requires m <= |g| && Rect(g, cols)
    requires MarkerRecord(before, g, cols, hp)
    ensures MarkerRecord(RowsFind(before, g, m, cols, hp, id), g, cols, hp)
  {
    if m > 0 {
      RowsFindMarker(before, g, m - 1, cols, hp, id);
      RowFindMarker(RowsFind(before, g, m - 1, cols, hp, id), g, m - 1, cols, cols, hp, id);
    }
  }

  // ---------------------------------------------------------------------------
  // The scan over the store

  /** An id that no scanned cell spawns is left as it was by the scan. */
  lemma RowsKeep(es: Store, g: Grid, m: nat, cols: nat, hp: int, id: int)
    requires m <= |g| && Rect(g, cols)
    requires forall y, x :: 0 <= y < m && 0 <= x < cols ==> !Spawns(g[y][x], x, y, id)
    ensures Find(SpawnRows(es, g, m, cols, hp), id) == Find(es, id)
  {
    RowsFindIs(es, g, m, cols, hp, id);
    RowsFindKeeps(Find(es, id), g, m, cols, hp, id);
  }

  /** The last cell of the scan that spawns `id` decides its record. */
  lemma RowsLast(es: Store, g: Grid, m: nat, cols: nat, hp: int, id: int, x0: nat, y0: nat)
    requires m <= |g| && Rect(g, cols)
    requires y0 < m && x0 < cols && Spawns(g[y0][x0], x0, y0, id)
    requires forall y, x :: 0 <= y < m && 0 <= x < cols && Later(x, y, x0, y0) ==> !Spawns(g[y][x], x, y, id)
    ensures Find(SpawnRows(es, g, m, cols, hp), id) == Some(SpawnRecord(g[y0][x0], x0, y0, hp))
  {
    RowsFindIs(es, g, m, cols, hp, id);
    RowsFindLast(Find(es, id), g, m, cols, hp, id, x0, y0);
  }

  /** Some scanned cell spawns `id`, so the scan ends with a record for it. */
  lemma RowsGain(es: Store, g: Grid, m: nat, cols: nat, hp: int, id: int, x0: nat, y0: nat)
    requires m <= |g| && Rect(g, cols)
    requires y0 < m && x0 < cols && Spawns(g[y0][x0], x0, y0, id)
    ensures Has(SpawnRows(es, g, m, cols, hp), id)
  {
    RowsFindIs(es, g, m, cols, hp, id);
    RowsFindGain(Find(es, id), g, m, cols, hp, id, x0, y0);
  }

  /** Every record the store ends up with was produced by some marker cell. */
  ghost predicate FromMarkers(es: Store, g: Grid, cols: nat, hp: int)
    requires Rect(g, cols)
  {
    forall id :: MarkerRecord(Find(es, id), g, cols, hp)
  }

  /** A scan that starts from marker records ends with marker records. */
  lemma RowsFromMarkers(es: Store, g: Grid, m: nat, cols: nat, hp: int)
    requires Rect(g, cols) && m <= |g|
    requires FromMarkers(es, g, cols, hp)
    ensures FromMarkers(SpawnRows(es, g, m, cols, hp), g, cols, hp)
  {
    forall id ensures MarkerRecord(Find(SpawnRows(es, g, m, cols, hp), id), g, cols, hp) {
      RowsFindIs(es, g, m, cols, hp, id);
      RowsFindMarker(Find(es, id), g, m, cols, hp, id);
    }
  }

  /** `LevelLoader.ParseAndLoad`: a missing or unparsable level changes nothing;
    * otherwise the grid becomes the first `cols` cells of every row, the store
    * is emptied and refilled from the marker cells, and every stored record is
    * the one its marker cell produces. */
  function ParseAndLoad(data: Option<LevelDataWrapper>, b: Board): (r: Board)
    requires data.Some? ==> Loadable(data.value.mapRows)
    ensures data.None? ==> r == b
    ensures data.Some? ==>
      var rows := data.value.mapRows;
      |r.grid| == |rows| && Rect(r.grid, |rows[0]|) &&
      (forall y :: 0 <= y < |rows| ==> |r.grid[y]| == |rows[0]|) &&
      (forall y, x :: 0 <= y < |rows| && 0 <= x < |rows[0]| ==> r.grid[y][x] == rows[y][x])
    ensures data.Some? ==>
      UniqueIds(r.entities) && FromMarkers(r.entities, r.grid, |data.value.mapRows[0]|, data.value.enemyHp)
  {
    match data
    case None => b
    case Some(d) =>
      var g := ToGrid(d.mapRows);
      var cols := |d.mapRows[0]|;
      var cleared := InitLevel(g);
      RowsFromMarkers(cleared.entities, g, |g|, cols, d.enemyHp);
      Board(g, SpawnRows(cleared.entities, g, |g|, cols, d.enemyHp))
  }

  /** Some cell of the loaded grid is a player marker. */
  predicate HasPlayerMarker(g: Grid, cols: nat)
    requires Rect(g, cols)
  {
    exists y, x :: 0 <= y < |g| && 0 <= x < cols && g[y][x] == PlayerSpawn
  }

  /** After a load the player exists exactly when the map has a player marker,
    * and then stands on one with 3 hit points. */
  lemma LoadedPlayer(d: LevelDataWrapper, b: Board)
    requires Loadable(d.mapRows)
    ensures var r := ParseAndLoad(Some(d), b);
      var cols := |d.mapRows[0]|;
      (Has(r.entities, LevelPlayerId) <==> HasPlayerMarker(r.grid, cols)) &&
      (Has(r.entities, LevelPlayerId) ==>
        var p := Find(r.entities, LevelPlayerId).value;
        0 <= p.y < |r.grid| && 0 <= p.x < cols && r.grid[p.y][p.x] == PlayerSpawn &&
        p == JellyData(LevelPlayerId, PlayerType, p.x, p.y, InitialHp))
  {
    var r := ParseAndLoad(Some(d), b);
    var g := r.grid;
    var cols := |d.mapRows[0]|;
    var hp := d.enemyHp;
    assert r.entities == SpawnRows([], g, |g|, cols, hp);
    if HasPlayerMarker(g, cols) {
      var y, x :| 0 <= y < |g| && 0 <= x < cols && g[y][x] == PlayerSpawn;
      RowsGain([], g, |g|, cols, hp, LevelPlayerId, x, y);
    } else {
      forall y, x | 0 <= y < |g| && 0 <= x < cols ensures !Spawns(g[y][x], x, y, LevelPlayerId) {
        assert g[y][x] != PlayerSpawn;
      }
      RowsKeep([], g, |g|, cols, hp, LevelPlayerId);
    }
  }

  /** On maps at most 10 cells wide every enemy marker yields its own enemy,
    * with the level's hit points, under the id derived from its cell. */
  lemma LoadedEnemies(d: LevelDataWrapper, b: Board, x0: nat, y0: nat)
    requires Loadable(d.mapRows) && |d.mapRows[0]| <= 10
    requires y0 < |d.mapRows| && x0 < |d.mapRows[0]| && d.mapRows[y0][x0] == EnemySpawn
    ensures Find(ParseAndLoad(Some(d), b).entities, EnemyIdAt(x0, y0))
      == Some(JellyData(EnemyIdAt(x0, y0), EnemyType, x0, y0, d.enemyHp))
  {
    var r := ParseAndLoad(Some(d), b);
    var g := r.grid;
    var cols := |d.mapRows[0]|;
    var id := EnemyIdAt(x0, y0);
    assert r.entities == SpawnRows([], g, |g|, cols, d.enemyHp);
    forall y, x | 0 <= y < |g| && 0 <= x < cols && Later(x, y, x0, y0) ensures !Spawns(g[y][x], x, y, id) {
      assert EnemyIdAt(x, y) != id;
    }
    RowsLast([], g, |g|, cols, d.enemyHp, id, x0, y0);
  }

  /** At most one record of a loaded level is a player. */
  lemma OnePlayerRecord(d: LevelDataWrapper, b: Board, i: int, j: int)
    requires Loadable(d.mapRows)
    requires var es := ParseAndLoad(Some(d), b).entities;
      0 <= i < |es| && 0 <= j < |es| && es[i].kind == PlayerType && es[j].kind == PlayerType
    ensures i == j
  {
    var r := ParseAndLoad(Some(d), b);
    var es := r.entities;
    FindMember(es, i);
    FindMember(es, j);
    assert Has(es, es[i].id) && Has(es, es[j].id);
  }

  /** From 11 columns on, two enemy markers can share an id: the markers at
    * (10, 0) and (0, 1) both map to 210, and the later one overwrites the
    * earlier, so the enemy of (10, 0) is lost. */
  lemma EnemyIdCollision(b: Board)
    ensures var row0 := [EnemySpawn] + seq(9, _ => EmptyCell) + [EnemySpawn];
      var row1 := [EnemySpawn] + seq(10, _ => EmptyCell);
      var d := LevelDataWrapper(1, "", [row0, row1], 2);
      var r := ParseAndLoad(Some(d), b);
      EnemyIdAt(10, 0) == EnemyIdAt(0, 1) &&
      Find(r.entities, 210) == Some(JellyData(210, EnemyType, 0, 1, 2))
  {
    var row0 := [EnemySpawn] + seq(9, _ => EmptyCell) + [EnemySpawn];
    var row1 := [EnemySpawn] + seq(10, _ => EmptyCell);
    var d := LevelDataWrapper(1, "", [row0, row1], 2);
    var r := ParseAndLoad(Some(d), b);
    var g := r.grid;
    assert r.entities == SpawnRows([], g, 2, 11, 2);
    forall y, x | 0 <= y < 2 && 0 <= x < 11 && Later(x, y, 0, 1) ensures !Spawns(g[y][x], x, y, 210) {
      assert g[y][x] == row1[x] == EmptyCell;
    }
    RowsLast([], g, 2, 11, 2, 210, 0, 1);
  }
}
