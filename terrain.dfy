/** Tile semantics of the stage grid (terrain.py). */
module Tiles {
  import opened Wrappers
  import opened Geometry
  import opened Settings

  /** Sprite-frame index of each known tile code (terrain_indexes). */
  const TerrainIndexes: map<int, nat> :=
    map[0 := 5, 1 := 6, 2 := 7, 3 := 8, 4 := 34, 5 := 122, 6 := 94, 7 := 95, 8 := 96, 9 := 215]

  /** The terrain sprite sheet is cut into this many columns and rows. */
  const TerrainSheetCols: nat := 22
  const TerrainSheetRows: nat := 11

  /** Contact damage of a tile code (set_terrain_damage). */
  function Damage(code: int): (d: int)
    ensures d == 0 || d == 1
    ensures d == 1 <==> 6 <= code <= 8
  {
    if code in [6, 7, 8] then 1 else 0
  }

  /** Whether a tile code is the goal (set_terrain_goal). */
  predicate IsGoal(code: int): (goal: bool)
    ensures goal ==> code in TerrainIndexes && Damage(code) == 0
  {
    code == 9
  }

  /** One placed tile: its cell, its world rectangle, its sprite frame and its metadata. */
  datatype Terrain = Terrain(gridX: int, gridY: int, rect: Rect, frame: nat, damage: int, isGoal: bool)

  /** Construction fails, as the dictionary lookup in the constructor does, on an unknown code. */
  datatype TerrainError = UnknownCode(code: int)

  /** The world rectangle of grid cell (gx, gy). */
  function CellRect(gx: int, gy: int): (r: Rect) {
    Rect(gx * GridSize, gy * GridSize, GridSize, GridSize)
  }

  /** Terrain.__init__: the geometry, the frame lookup and the two metadata lookups. */
  function NewTerrain(gx: int, gy: int, code: int): (r: Result<Terrain, TerrainError>)
    ensures r.Ok? <==> 0 <= code <= 9
    ensures r.Err? ==> r.error == UnknownCode(code)
    ensures r.Ok? ==> r.value.gridX == gx && r.value.gridY == gy
    ensures r.Ok? ==> r.value.rect == Rect(gx * GridSize, gy * GridSize, GridSize, GridSize)
    ensures r.Ok? ==> r.value.frame < TerrainSheetCols * TerrainSheetRows
    ensures r.Ok? ==> r.value.damage == Damage(code) && r.value.isGoal == IsGoal(code)
  {
    KnownCodes(code);
    if code in TerrainIndexes then
      Ok(Terrain(gx, gy, CellRect(gx, gy), TerrainIndexes[code], Damage(code), IsGoal(code)))
    else
      Err(UnknownCode(code))
  }

  /** The codes with an entry in terrain_indexes are exactly 0..9, and each names a frame of the sheet. */
  lemma KnownCodes(code: int)
    ensures code in TerrainIndexes <==> 0 <= code <= 9
    ensures code in TerrainIndexes ==> TerrainIndexes[code] < TerrainSheetCols * TerrainSheetRows
  {
    if 0 <= code <= 9 {
      assert code == 0 || code == 1 || code == 2 || code == 3 || code == 4
          || code == 5 || code == 6 || code == 7 || code == 8 || code == 9;
    }
  }

  /** No tile code is both damaging and the goal. */
  lemma NoDamagingGoal(code: int)
    ensures !(Damage(code) > 0 && IsGoal(code))
  {
  }

  /** The rectangles of two distinct grid cells never overlap. */
  lemma DistinctCellsDisjoint(gx1: int, gy1: int, gx2: int, gy2: int)
    requires gx1 != gx2 || gy1 != gy2
    ensures !Collide(CellRect(gx1, gy1), CellRect(gx2, gy2))
  {
    if gx1 < gx2 {
      assert gx1 * GridSize + GridSize <= gx2 * GridSize;
    } else if gx2 < gx1 {
      assert gx2 * GridSize + GridSize <= gx1 * GridSize;
    } else if gy1 < gy2 {
      assert gy1 * GridSize + GridSize <= gy2 * GridSize;
    } else {
      assert gy2 * GridSize + GridSize <= gy1 * GridSize;
    }
  }

  /** Horizontally and vertically adjacent cells share an edge. */
  lemma AdjacentCellsTouch(gx: int, gy: int)
    ensures CellRect(gx, gy).Right() == CellRect(gx + 1, gy).Left()
    ensures CellRect(gx, gy).Bottom() == CellRect(gx, gy + 1).Top()
  {
  }
}
