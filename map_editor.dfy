/** The map editor's grid operations and the map-selection list (map_editor.py). */
module MapEditing {
  import opened Wrappers
  import opened Settings
  import opened Tiles
  import opened Arith

  /** A map in editing: rows of tile codes, row-major. */
  type Grid = seq<seq<int>>

  /** A new map has Height / GridSize rows of Width / GridSize cells. */
  const GridRows: nat := Height / GridSize
  const GridCols: nat := Width / GridSize

  /** Every row of g has the same length as the first. */
  predicate Rectangular(g: Grid) {
    forall r :: 0 <= r < |g| ==> |g[r]| == |g[0]|
  }

  // ---------------------------------------------------------------------------
  // New map

  /** The map a new map starts as: GridRows rows of GridCols empty cells. */
  predicate BlankMap(g: Grid) {
    |g| == GridRows && forall r :: 0 <= r < |g| ==> g[r] == seq(GridCols, _ => 0)
  }

  /** The nested append loops that build a new, all-empty map. */
  method EmptyGrid() returns (g: Grid)
    ensures |g| == GridRows == 15
    ensures forall r :: 0 <= r < |g| ==> |g[r]| == GridCols == 20
    ensures forall r, c :: 0 <= r < |g| && 0 <= c < |g[r]| ==> g[r][c] == 0
    ensures GridCells(g) == []
  {
    g := [];
    for i := 0 to GridRows
      invariant |g| == i
      invariant forall r :: 0 <= r < i ==> |g[r]| == GridCols
      invariant forall r, c :: 0 <= r < i && 0 <= c < |g[r]| ==> g[r][c] == 0
    {
      var row: seq<int> := [];
      for j := 0 to GridCols
        invariant |row| == j
        invariant forall c :: 0 <= c < j ==> row[c] == 0
      {
        row := row + [0];
      }
      g := g + [row];
    }
    NoCellsInBlankMap(g);
  }

  // ---------------------------------------------------------------------------
  // Painting one cell

  /**
   * The bounds check as written: the row index against the row count, the
   * column index against the length of row 0.
   */
  predicate GuardAsWritten(g: Grid, gx: int, gy: int) {
    0 <= gy < |g| && 0 <= gx < |g[0]|
  }

  /** The bounds check the comment asks for: the cell exists in its own row. */
  predicate InBounds(g: Grid, gx: int, gy: int) {
    0 <= gy < |g| && 0 <= gx < |g[gy]|
  }

  /** The guard as written admits a cell past the end of a shorter row (an IndexError). */
  lemma GuardAsWrittenAdmitsMissingCell()
    ensures var g: Grid := [[0, 0], [0]];
      GuardAsWritten(g, 1, 1) && !InBounds(g, 1, 1)
  {
  }

  /** On a rectangular map the two guards agree. */
  lemma GuardsAgreeOnRectangular(g: Grid, gx: int, gy: int)
    requires Rectangular(g)
    ensures GuardAsWritten(g, gx, gy) <==> InBounds(g, gx, gy)
  {
  }

  /** Write `color` to cell (gx, gy) when it exists; otherwise change nothing. */
  function PaintCell(g: Grid, gx: int, gy: int, color: int): (p: Grid)
    ensures |p| == |g| && (Rectangular(g) ==> Rectangular(p))
    ensures InBounds(g, gx, gy) <==> InBounds(p, gx, gy)
    ensures InBounds(g, gx, gy) ==> p[gy][gx] == color
  {
    if InBounds(g, gx, gy) then g[gy := g[gy][gx := color]] else g
  }

  /**
   * Painting changes exactly the addressed cell when it exists and no other
   * cell, and keeps the row count and every row length.
   */
  lemma PaintChangesOneCell(g: Grid, gx: int, gy: int, color: int)
    ensures var p := PaintCell(g, gx, gy, color);
      && |p| == |g|
      && (forall r :: 0 <= r < |g| ==> |p[r]| == |g[r]|)
      && (forall r, c :: 0 <= r < |g| && 0 <= c < |g[r]| ==>
            p[r][c] == if r == gy && c == gx then color else g[r][c])
      && (!InBounds(g, gx, gy) ==> p == g)
      && (|g| == 0 ==> p == g)
  {
  }

  // ---------------------------------------------------------------------------
  // Rebuilding the terrain list

  /** A non-empty cell: its column, its row and its code. */
  datatype Cell = Cell(x: int, y: int, code: int)

  /** The non-zero cells of row number y, left to right. */
  function RowCells(row: seq<int>, y: int): (cs: seq<Cell>)
    decreases |row|
  {
    if |row| == 0 then []
    else
      var last := |row| - 1;
      RowCells(row[..last], y) + (if row[last] != 0 then [Cell(last, y, row[last])] else [])
  }

  /** The non-zero cells of the grid in row-major order. */
  function GridCells(g: Grid): (cs: seq<Cell>)
    decreases |g|
  {
    if |g| == 0 then [] else GridCells(g[..|g| - 1]) + RowCells(g[|g| - 1], |g| - 1)
  }

  /** A cell of RowCells is exactly a non-zero entry of the row. */
  lemma {:induction false} RowCellsMembers(row: seq<int>, y: int, c: Cell)
    ensures c in RowCells(row, y) <==> c.y == y && 0 <= c.x < |row| && row[c.x] == c.code && c.code != 0
    decreases |row|
  {
    if |row| > 0 {
      var last := |row| - 1;
      RowCellsMembers(row[..last], y, c);
      if c.x < last && 0 <= c.x {
        assert row[..last][c.x] == row[c.x];
      }
    }
  }

  /**
   * _update_terrains selects exactly the non-zero cells: (x, y, v) is listed
   * iff row y, column x of the grid holds v and v is not 0.
   */
  lemma {:induction false} GridCellsMembers(g: Grid, c: Cell)
    ensures c in GridCells(g) <==>
      0 <= c.y < |g| && 0 <= c.x < |g[c.y]| && g[c.y][c.x] == c.code && c.code != 0
    decreases |g|
  {
    if |g| > 0 {
      var last := |g| - 1;
      GridCellsMembers(g[..last], c);
      RowCellsMembers(g[last], last, c);
      if 0 <= c.y < last {
        assert g[..last][c.y] == g[c.y];
      }
    }
  }

  /** Row-major order: a comes strictly before b. */
  predicate Before(a: Cell, b: Cell) {
    a.y < b.y || (a.y == b.y && a.x < b.x)
  }

  /** A list of cells in strictly increasing row-major order (so no cell twice). */
  predicate RowMajor(cells: seq<Cell>) {
    forall i, j :: 0 <= i < j < |cells| ==> Before(cells[i], cells[j])
  }

  /** Appending a block whose cells all come after a sorted prefix keeps the order. */
  lemma ConcatRowMajor(a: seq<Cell>, b: seq<Cell>)
    requires RowMajor(a) && RowMajor(b)
    requires forall i, j :: 0 <= i < |a| && 0 <= j < |b| ==> Before(a[i], b[j])
    ensures RowMajor(a + b)
  {
    forall i, j | 0 <= i < j < |a + b| ensures Before((a + b)[i], (a + b)[j]) {
      if j < |a| {
        assert (a + b)[i] == a[i] && (a + b)[j] == a[j];
      } else if i < |a| {
        assert (a + b)[i] == a[i] && (a + b)[j] == b[j - |a|];
      } else {
        assert (a + b)[i] == b[i - |a|] && (a + b)[j] == b[j - |a|];
      }
    }
  }

  /** The cells of one row are in increasing column order, all in that row and below column |row|. */
  lemma {:induction false} RowCellsOrdered(row: seq<int>, y: int)
    ensures RowMajor(RowCells(row, y))
    ensures forall i :: 0 <= i < |RowCells(row, y)| ==> RowCells(row, y)[i].y == y && 0 <= RowCells(row, y)[i].x < |row|
    decreases |row|
  {
    if |row| > 0 {
      var last := |row| - 1;
      RowCellsOrdered(row[..last], y);
      var tail: seq<Cell> := if row[last] != 0 then [Cell(last, y, row[last])] else [];
      ConcatRowMajor(RowCells(row[..last], y), tail);
    }
  }

  /** The cells of the grid come out in strictly increasing row-major order, all above row |g|. */
  lemma {:induction false} GridCellsOrdered(g: Grid)
    ensures RowMajor(GridCells(g))
    ensures forall i :: 0 <= i < |GridCells(g)| ==> 0 <= GridCells(g)[i].y < |g|
    decreases |g|
  {
    if |g| > 0 {
      var last := |g| - 1;
      GridCellsOrdered(g[..last]);
      RowCellsOrdered(g[last], last);
      ConcatRowMajor(GridCells(g[..last]), RowCells(g[last], last));
    }
  }

  /** A map of all-zero cells has no terrain. */
  lemma NoCellsInBlankMap(g: Grid)
    requires forall r, c :: 0 <= r < |g| && 0 <= c < |g[r]| ==> g[r][c] == 0
    ensures GridCells(g) == []
  {
    if GridCells(g) != [] {
      GridCellsMembers(g, GridCells(g)[0]);
    }
  }

  /**
   * After painting an existing cell, the rebuilt terrain list holds that cell
   * with the palette code exactly when the code is not 0 (code 0 erases).
   */
  lemma PaintedCellListed(g: Grid, gx: int, gy: int, color: int)
    requires InBounds(g, gx, gy)
    ensures Cell(gx, gy, color) in GridCells(PaintCell(g, gx, gy, color)) <==> color != 0
    ensures color == 0 ==> forall v :: Cell(gx, gy, v) !in GridCells(PaintCell(g, gx, gy, color))
  {
    var p := PaintCell(g, gx, gy, color);
    PaintChangesOneCell(g, gx, gy, color);
    GridCellsMembers(p, Cell(gx, gy, color));
    forall v ensures color == 0 ==> Cell(gx, gy, v) !in GridCells(p) {
      GridCellsMembers(p, Cell(gx, gy, v));
    }
  }

  /** Every listed cell carries a code terrain_indexes knows. */
  predicate AllKnown(cells: seq<Cell>) {
    forall i :: 0 <= i < |cells| ==> 0 <= cells[i].code <= 9
  }

  /** The tile a known cell becomes. */
  function TileOf(c: Cell): (t: Terrain)
    requires 0 <= c.code <= 9
    ensures t.gridX == c.x && t.gridY == c.y && t.rect == CellRect(c.x, c.y)
    ensures t.damage == Damage(c.code) && t.isGoal == IsGoal(c.code)
  {
    NewTerrain(c.x, c.y, c.code).value
  }

  /** The terrains built, in order, from a list of known cells. */
  function TilesFor(cells: seq<Cell>): (ts: seq<Terrain>)
    requires AllKnown(cells)
    ensures |ts| == |cells|
    ensures forall i :: 0 <= i < |cells| ==> ts[i] == TileOf(cells[i])
    decreases |cells|
  {
    if |cells| == 0 then [] else TilesFor(cells[..|cells| - 1]) + [TileOf(cells[|cells| - 1])]
  }

  /** The cells scanned so far (rows before y, then columns before x of row y) are a prefix of all the cells. */
  lemma {:induction false} ScannedPrefix(g: Grid, y: nat, x: nat)
    requires y < |g| && x <= |g[y]|
    ensures var done := GridCells(g[..y]) + RowCells(g[y][..x], y);
      |done| <= |GridCells(g)| && GridCells(g)[..|done|] == done
    decreases |g|
  {
    RowPrefix(g[y], y, x);
    var upto := g[..y + 1];
    assert upto[..y] == g[..y] && upto[y] == g[y];
    assert GridCells(upto) == GridCells(g[..y]) + RowCells(g[y], y);
    GridPrefix(g, y + 1);
  }

  lemma {:induction false} RowPrefix(row: seq<int>, y: int, x: nat)
    requires x <= |row|
    ensures |RowCells(row[..x], y)| <= |RowCells(row, y)| && RowCells(row, y)[..|RowCells(row[..x], y)|] == RowCells(row[..x], y)
    decreases |row| - x
  {
    if x < |row| {
      RowPrefix(row, y, x + 1);
      assert row[..x + 1][..x] == row[..x];
    } else {
      assert row[..x] == row;
    }
  }

  lemma {:induction false} GridPrefix(g: Grid, n: nat)
    requires n <= |g|
    ensures |GridCells(g[..n])| <= |GridCells(g)| && GridCells(g)[..|GridCells(g[..n])|] == GridCells(g[..n])
    decreases |g| - n
  {
    if n < |g| {
      GridPrefix(g, n + 1);
      assert g[..n + 1][..n] == g[..n];
    } else {
      assert g[..n] == g;
    }
  }

  /** Python's int(a / b) for a positive b: the quotient truncated toward zero. */
  function TruncDiv(a: int, b: int): (q: int)
    requires b > 0
  {
    if a >= 0 then a / b else -((-a) / b)
  }

  /**
   * int(x / GRID_SIZE) and x // GRID_SIZE pick the same cell for every
   * on-screen position, and for a negative one they differ exactly when x
   * is not a multiple of the divisor.
   */
  lemma TruncDivAgreesOnScreen(a: int, b: int)
    requires b > 0
    ensures a >= 0 ==> TruncDiv(a, b) == a / b
    ensures a < 0 ==> (TruncDiv(a, b) == a / b <==> a % b == 0)
  {
    if a < 0 {
      var q, r := (-a) / b, (-a) % b;
      assert -a == q * b + r;
      if r == 0 {
        DivModUnique(a, b, -q, 0);
      } else {
        assert a == (-q - 1) * b + (b - r);
        DivModUnique(a, b, -q - 1, b - r);
      }
    }
  }

  // ---------------------------------------------------------------------------
  // The map-selection list

  /** One entry of the map-selection list. */
  datatype MapEntry = MapEntry(filename: string, mapName: string, filepath: string, isNew: bool)

  /** The placeholder offered when no map file loads. */
  function NewMapPlaceholder(mapsDir: string): (e: MapEntry) {
    MapEntry("new_map.json", "新規マップ", mapsDir + "/new_map.json", true)
  }

  /** _load_map_list after the directory walk: the loaded entries, or the placeholder alone. */
  function MapList(found: seq<MapEntry>, mapsDir: string): (maps: seq<MapEntry>)
    ensures |maps| >= 1
    ensures |found| == 0 ==> maps == [NewMapPlaceholder(mapsDir)] && maps[0].isNew
    ensures |found| > 0 ==> maps == found
  {
    if |found| == 0 then [NewMapPlaceholder(mapsDir)] else found
  }

  /** What the selection screen hands to the editor. */
  datatype Selection = NewMap | Existing(entry: MapEntry)

  /** The events the selection screen reacts to. */
  datatype SelectionEvent = Quit | Escape | Up | Down | NewKey | Enter | OtherEvent

  /** What handling one event leads to: keep going, leave with nothing, or leave with a choice. */
  datatype SelectionOutcome = Continue | Exit | Chosen(selection: Selection)

  /** The cursor after UP: one entry up, not above the first. */
  function CursorUp(i: int): (j: int) {
    if i - 1 >= 0 then i - 1 else 0
  }

  /** The cursor after DOWN: one entry down, not below the last of n. */
  function CursorDown(i: int, n: int): (j: int) {
    if i + 1 <= n - 1 then i + 1 else n - 1
  }

  /** UP and DOWN keep the cursor on an entry and move it by at most one. */
  lemma CursorStaysOnList(i: int, n: int)
    requires 0 <= i < n
    ensures 0 <= CursorUp(i) < n && 0 <= CursorDown(i, n) < n
    ensures CursorUp(i) == (if i > 0 then i - 1 else 0)
    ensures CursorDown(i, n) == (if i < n - 1 then i + 1 else n - 1)
  {
  }

  class MapSelectionUI {
    var maps: seq<MapEntry>
    var selectedIndex: int
    var running: bool

    ghost predicate Valid()
      reads this
    {
      |maps| >= 1 && 0 <= selectedIndex < |maps|
    }

    /** MapSelectionUI.__init__, with the entries the directory walk produced passed in. */
    constructor (found: seq<MapEntry>, mapsDir: string)
      ensures Valid()
      ensures maps == MapList(found, mapsDir) && selectedIndex == 0 && running
    {
      maps := MapList(found, mapsDir);
      selectedIndex := 0;
      running := true;
    }

    /** One event of MapSelectionUI.run. */
    method HandleEvent(e: SelectionEvent) returns (outcome: SelectionOutcome)
      requires Valid()
      modifies this`selectedIndex
      ensures Valid()
      ensures e == Up ==> selectedIndex == CursorUp(old(selectedIndex)) && outcome == Continue
      ensures e == Down ==> selectedIndex == CursorDown(old(selectedIndex), |maps|) && outcome == Continue
      ensures e != Up && e != Down ==> selectedIndex == old(selectedIndex)
      ensures e == Quit || e == Escape ==> outcome == Exit
      ensures e == NewKey ==> outcome == Chosen(NewMap)
      ensures e == Enter ==> outcome == Chosen(if maps[selectedIndex].isNew then NewMap else Existing(maps[selectedIndex]))
      ensures e == OtherEvent ==> outcome == Continue
    {
      CursorStaysOnList(selectedIndex, |maps|);
      match e
      case Quit => outcome := Exit;
      case Escape => outcome := Exit;
      case Up =>
        selectedIndex := if selectedIndex - 1 > 0 then selectedIndex - 1 else 0;
        outcome := Continue;
      case Down =>
        selectedIndex := if |maps| - 1 < selectedIndex + 1 then |maps| - 1 else selectedIndex + 1;
        outcome := Continue;
      case NewKey => outcome := Chosen(NewMap);
      case Enter =>
        var selected := maps[selectedIndex];
        outcome := if selected.isNew then Chosen(NewMap) else Chosen(Existing(selected));
      case OtherEvent => outcome := Continue;
    }
  }

  // ---------------------------------------------------------------------------
  // The editor

  /** A digit key 0..9. */
  type Digit = d: int | 0 <= d <= 9

  /** The key events the editor reacts to. */
  datatype EditorKey = DigitKey(digit: Digit) | SaveKey | OtherKey

  /** What reading a map file gave: None when it failed, else its two optional entries. */
  datatype LoadedMap = LoadedMap(mapName: Option<string>, mapData: Option<Grid>)

  class MapEditor {
    var shouldRun: bool
    var isNewMap: bool
    var currentFilepath: Option<string>
    var mapName: string
    var mapInEditing: Grid
    var terrains: seq<Terrain>
    var terrainColor: int
    var mouseTerrain: Option<Terrain>

    /** The selected palette entry is a tile code. */
    ghost predicate Valid()
      reads this
    {
      0 <= terrainColor <= 9
    }

    /**
     * The map fields MapEditor.__init__ sets for the screen's answer
     * `selected` and, for an existing map, what reading its file gave: a new
     * map and a file that could not be read both start blank.
     */
    ghost predicate OpenedAs(selected: Option<Selection>, loaded: Option<LoadedMap>)
      reads this`shouldRun, this`isNewMap, this`currentFilepath, this`mapName, this`mapInEditing
    {
      && shouldRun == selected.Some?
      && (selected.None? ==> mapInEditing == [])
      && (selected == Some(NewMap) ==>
            isNewMap && currentFilepath == None && mapName == "新しいマップ" && BlankMap(mapInEditing))
      && (selected.Some? && selected.value.Existing? && loaded.None? ==>
            && !isNewMap && currentFilepath == Some(selected.value.entry.filepath)
            && mapName == selected.value.entry.mapName && BlankMap(mapInEditing))
      && (selected.Some? && selected.value.Existing? && loaded.Some? ==>
            && !isNewMap && currentFilepath == Some(selected.value.entry.filepath)
            && mapName == (if loaded.value.mapName.Some? then loaded.value.mapName.value else "名前なし")
            && mapInEditing == (if loaded.value.mapData.Some? then loaded.value.mapData.value else []))
    }

    /**
     * The field set-up of MapEditor.__init__. __init__ ends with
     * _update_terrains: see Open.
     */
    constructor (selected: Option<Selection>, loaded: Option<LoadedMap>)
      ensures Valid() && OpenedAs(selected, loaded)
      ensures terrains == [] && mouseTerrain == None
      ensures selected.Some? ==> terrainColor == 1
      ensures selected.None? || selected.value.NewMap? || loaded.None? ==> GridCells(mapInEditing) == []
    {
      terrains := [];
      terrainColor := 1;
      mouseTerrain := None;
      if selected.None? {
        shouldRun := false;
        isNewMap := false;
        currentFilepath := None;
        mapName := "";
        mapInEditing := [];
      } else {
        shouldRun := true;
        var sel := selected.value;
        var isNew := sel.NewMap?;
        isNewMap := isNew;
        currentFilepath := if isNew then None else Some(sel.entry.filepath);
        mapName := if isNew then "新しいマップ" else sel.entry.mapName;
        if isNew || loaded.None? {
          var g := EmptyGrid();
          mapInEditing := g;
          forall r | 0 <= r < |g| ensures g[r] == seq(GridCols, _ => 0) {
            assert |g[r]| == 20 && forall c :: 0 <= c < 20 ==> g[r][c] == 0;
          }
        } else {
          var file := loaded.value;
          mapName := if file.mapName.Some? then file.mapName.value else "名前なし";
          mapInEditing := if file.mapData.Some? then file.mapData.value else [];
        }
      }
    }

    /**
     * MapEditor.__init__ in full: the field set-up, then the first terrain
     * rebuild, which is skipped when the selection screen was closed.
     */
    static method Open(selected: Option<Selection>, loaded: Option<LoadedMap>, mouseX: int, mouseY: int)
      returns (editor: MapEditor, ok: bool)
      ensures fresh(editor) && editor.Valid()
      ensures editor.OpenedAs(selected, loaded)
      ensures selected.Some? ==> editor.terrainColor == 1
      ensures selected.None? ==> ok && editor.terrains == [] && editor.mouseTerrain == None
      ensures selected.Some? && (selected.value.NewMap? || loaded.None?) ==> ok && editor.terrains == []
      ensures ok <==> AllKnown(GridCells(editor.mapInEditing))
      ensures ok ==> editor.terrains == TilesFor(GridCells(editor.mapInEditing))
      ensures selected.Some? && ok ==>
        editor.mouseTerrain == Some(TileOf(Cell(TruncDiv(mouseX, GridSize), TruncDiv(mouseY, GridSize), editor.terrainColor)))
    {
      editor := new MapEditor(selected, loaded);
      if selected.None? {
        ok := true;
      } else {
        ok := editor.UpdateTerrains(mouseX, mouseY);
      }
    }

    /** The palette step of MapEditor.run: digit key k selects tile code k. */
    method HandleKey(key: EditorKey)
      requires Valid()
      modifies this`terrainColor
      ensures Valid()
      ensures key.DigitKey? ==> terrainColor == key.digit
      ensures !key.DigitKey? ==> terrainColor == old(terrainColor)
    {
      if key.DigitKey? {
        terrainColor := key.digit;
      }
    }

    /** The paint step of MapEditor.run while the left button is held at (mouseX, mouseY). */
    method PaintAt(mouseX: int, mouseY: int)
      modifies this`mapInEditing
      ensures mapInEditing == PaintCell(old(mapInEditing), mouseX / GridSize, mouseY / GridSize, terrainColor)
    {
      var gridX := mouseX / GridSize;
      var gridY := mouseY / GridSize;
      if 0 <= gridY < |mapInEditing| && 0 <= gridX < |mapInEditing[gridY]| {
        mapInEditing := mapInEditing[gridY := mapInEditing[gridY][gridX := terrainColor]];
      }
    }

    /**
     * _update_terrains: rebuild the terrain list from the non-zero cells, row
     * by row. An unknown code stops the rebuild with the list built so far
     * (the dictionary lookup raises there); otherwise the cursor tile under
     * the mouse is rebuilt too.
     */
    method UpdateTerrains(mouseX: int, mouseY: int) returns (ok: bool)
      requires Valid()
      modifies this`terrains, this`mouseTerrain
      ensures ok <==> AllKnown(GridCells(mapInEditing))
      ensures ok ==> terrains == TilesFor(GridCells(mapInEditing))
      ensures ok ==> mouseTerrain == Some(TileOf(Cell(TruncDiv(mouseX, GridSize), TruncDiv(mouseY, GridSize), terrainColor)))
      ensures !ok ==> StoppedAtUnknown(GridCells(mapInEditing), terrains)
      ensures !ok ==> mouseTerrain == old(mouseTerrain)
    {
      terrains := [];
      var y := 0;
      while y < |mapInEditing|
        invariant 0 <= y <= |mapInEditing|
        invariant AllKnown(GridCells(mapInEditing[..y]))
        invariant terrains == TilesFor(GridCells(mapInEditing[..y]))
        invariant mouseTerrain == old(mouseTerrain)
      {
        var rowOk;
        terrains, rowOk := ScanRow(mapInEditing, y, terrains);
        if !rowOk {
          StoppedMeansNotAllKnown(GridCells(mapInEditing), terrains);
          ok := false;
          return;
        }
        y := y + 1;
      }
      assert mapInEditing[..y] == mapInEditing;
      mouseTerrain := Some(TileOf(Cell(TruncDiv(mouseX, GridSize), TruncDiv(mouseY, GridSize), terrainColor)));
      ok := true;
    }
  }

  /**
   * The rebuild stopped at an unknown code: built holds the tiles of the
   * cells before it, all known, and the next cell's code is unknown.
   */
  predicate StoppedAtUnknown(cells: seq<Cell>, built: seq<Terrain>) {
    && |built| < |cells|
    && AllKnown(cells[..|built|])
    && built == TilesFor(cells[..|built|])
    && !(0 <= cells[|built|].code <= 9)
  }

  lemma StoppedMeansNotAllKnown(cells: seq<Cell>, built: seq<Terrain>)
    requires StoppedAtUnknown(cells, built)
    ensures !AllKnown(cells)
  {
  }

  /** Adding the next row's cells to the cells of the rows before it. */
  lemma GridCellsNextRow(g: Grid, y: nat)
    requires y < |g|
    ensures GridCells(g[..y + 1]) == GridCells(g[..y]) + RowCells(g[y], y)
  {
    var upto := g[..y + 1];
    assert upto[..y] == g[..y] && upto[y] == g[y];
  }

  /** One more column of a row: its cell joins the row's cells when it is not empty. */
  lemma RowCellsStep(row: seq<int>, y: int, x: nat)
    requires x < |row|
    ensures RowCells(row[..x + 1], y) == RowCells(row[..x], y) + (if row[x] != 0 then [Cell(x, y, row[x])] else [])
  {
    assert row[..x + 1][..x] == row[..x];
  }

  /** Building one more known cell appends its tile. */
  lemma TilesForSnoc(cells: seq<Cell>, c: Cell)
    requires AllKnown(cells) && 0 <= c.code <= 9
    ensures AllKnown(cells + [c])
    ensures TilesFor(cells + [c]) == TilesFor(cells) + [TileOf(c)]
  {
    assert (cells + [c])[..|cells|] == cells;
  }

  /** The cells scanned before column x of row y. */
  function Scanned(g: Grid, y: nat, x: nat): (cs: seq<Cell>)
    requires y < |g| && x <= |g[y]|
  {
    GridCells(g[..y]) + RowCells(g[y][..x], y)
  }

  /** Column x of row y holds a known code or 0: the scan goes on past it. */
  lemma ScanGoesOn(g: Grid, y: nat, x: nat)
    requires y < |g| && x < |g[y]| && 0 <= g[y][x] <= 9
    requires AllKnown(Scanned(g, y, x))
    ensures AllKnown(Scanned(g, y, x + 1))
    ensures TilesFor(Scanned(g, y, x + 1)) ==
      TilesFor(Scanned(g, y, x)) + (if g[y][x] != 0 then [TileOf(Cell(x, y, g[y][x]))] else [])
  {
    RowCellsStep(g[y], y, x);
    if g[y][x] != 0 {
      TilesForSnoc(Scanned(g, y, x), Cell(x, y, g[y][x]));
      assert Scanned(g, y, x + 1) == Scanned(g, y, x) + [Cell(x, y, g[y][x])];
    } else {
      assert Scanned(g, y, x + 1) == Scanned(g, y, x);
    }
  }

  /** Column x of row y holds an unknown code: the scan stops with the tiles of the cells before it. */
  lemma ScanStops(g: Grid, y: nat, x: nat)
    requires y < |g| && x < |g[y]| && g[y][x] != 0 && !(0 <= g[y][x] <= 9)
    requires AllKnown(Scanned(g, y, x))
    ensures StoppedAtUnknown(GridCells(g), TilesFor(Scanned(g, y, x)))
  {
    var done := Scanned(g, y, x);
    RowCellsStep(g[y], y, x);
    ScannedPrefix(g, y, x + 1);
    assert Scanned(g, y, x + 1) == done + [Cell(x, y, g[y][x])];
    PrefixOfPrefix(GridCells(g), done, Cell(x, y, g[y][x]));
  }

  /** The inner loop of _update_terrains: the tiles of row y appended to those of the rows before it. */
  method ScanRow(g: Grid, y: nat, acc: seq<Terrain>) returns (ts: seq<Terrain>, ok: bool)
    requires y < |g|
    requires AllKnown(GridCells(g[..y])) && acc == TilesFor(GridCells(g[..y]))
    ensures ok ==> AllKnown(GridCells(g[..y + 1])) && ts == TilesFor(GridCells(g[..y + 1]))
    ensures !ok ==> StoppedAtUnknown(GridCells(g), ts)
  {
    var row := g[y];
    ts := acc;
    var x := 0;
    assert g[y][..0] == [];
    assert Scanned(g, y, 0) == GridCells(g[..y]);
    while x < |row|
      invariant 0 <= x <= |row|
      invariant AllKnown(Scanned(g, y, x))
      invariant ts == TilesFor(Scanned(g, y, x))
    {
      ts, ok := ScanCell(g, y, x, ts);
      if !ok {
        return;
      }
      x := x + 1;
    }
    assert g[y][..x] == g[y];
    GridCellsNextRow(g, y);
    assert Scanned(g, y, x) == GridCells(g[..y + 1]);
    ok := true;
  }

  /** One column of the inner loop of _update_terrains: build the cell's tile, or stop on an unknown code. */
  method ScanCell(g: Grid, y: nat, x: nat, acc: seq<Terrain>) returns (ts: seq<Terrain>, ok: bool)
    requires y < |g| && x < |g[y]|
    requires AllKnown(Scanned(g, y, x)) && acc == TilesFor(Scanned(g, y, x))
    ensures ok ==> AllKnown(Scanned(g, y, x + 1)) && ts == TilesFor(Scanned(g, y, x + 1))
    ensures !ok ==> StoppedAtUnknown(GridCells(g), ts)
  {
    var cell := g[y][x];
    ts := acc;
    ok := true;
    if cell != 0 {
      var t := NewTerrain(x, y, cell);
      if t.Err? {
        ScanStops(g, y, x);
        ok := false;
        return;
      }
      assert t.value == TileOf(Cell(x, y, cell));
      ts := ts + [t.value];
    }
    ScanGoesOn(g, y, x);
  }

  lemma PrefixOfPrefix(cells: seq<Cell>, done: seq<Cell>, c: Cell)
    requires |done + [c]| <= |cells| && cells[..|done + [c]|] == done + [c]
    ensures |done| < |cells| && cells[..|done|] == done && cells[|done|] == c
  {
    assert cells[..|done|] == (cells[..|done + [c]|])[..|done|];
    assert (done + [c])[..|done|] == done;
    assert cells[|done|] == (done + [c])[|done|];
  }
}
