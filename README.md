# kurari_platformer: a Dafny model of the game logic

This project models the sequential game logic of *kurari_platformer*, a small pygame
platformer with a tile-map editor, and proves properties of that model. It covers:

- the enemy's patrol and jump AI and its 100-step jump lookahead (`enemy.dfy`, module `EnemyAI`);
- the player's horizontal speed and screen clamping (`player.dfy`, module `PlayerControl`);
- what a tile code means: damage, goal flag, sprite frame and grid rectangle (`terrain.dfy`, module `Tiles`);
- the map editor's grid (`map_editor.dfy`, module `MapEditing`): building an empty map,
  painting one cell, rebuilding the terrain list, choosing the palette entry with a digit key,
  and moving the cursor through the map-selection list;
- sprite-sheet slicing and frame animation (`sprite.dfy`, module `Sprites`);
- stage sequencing (`game.dfy`, module `Session`).

`settings.dfy` holds the constants of `settings.py`. `geometry.dfy` holds the
rectangle type and the collision test. `wrappers.dfy` holds `Option` and `Result`.
`arith.dfy` holds facts about division and remainder that the index arithmetic needs.

Objects whose fields the game updates in place are Dafny classes with those fields:
`Enemy`, `Player`, `SpriteWithFrames`, `MapEditor`, `MapSelectionUI` and `Game`. Each
method that computes a new state states that state in terms of the old one, mostly as a
specification function of the old state. The queries `CanReachOtherSide` and `IsOutOfScreen`
return a function of the fields (`ReachesOtherSide`, and `y > 600`). `StageInit` builds a
fresh stage named by the stage list.

- One enemy frame is `AirStep` or `GroundStep` on a `Body` value. After a blocked walk,
  `GroundStep` runs the jump lookahead in the direction after the turn, as enemy.py:102 does.
- Player speed is `NextSpeed`, and the clamped position is `ClampX`.
- Painting a cell is `PaintCell`. The terrain rebuild is `TilesFor(GridCells(grid))`.
- A sprite frame is `SheetFrame`. Stage advancement is `NextStage`.

The lemmas prove what the game relies on about those functions.

Modelling conventions:

- **Collision.** pygame's `Rect.colliderect` is `Geometry.Collide`. It is taken to mean
  strict overlap on both axes, so rectangles that only share an edge do not collide. This is
  an assumption: pygame's implementation is not part of this model.
- **Fractional speeds.** They are exact `real` values: the enemy's 0.5 and 0.2, and the
  player's 0.5. Float rounding is not modelled.
- **Float to int.** pygame converts a float to an integer when one is stored into a `Rect`
  coordinate. That conversion is a function parameter `px: real -> int` that stays abstract.
  Only `PlayerControl.StillMoveKeepsPosition` assumes anything about it: that it returns
  whole numbers unchanged (`ExactOnIntegers`).
- **Terrain list.** The enemy only ever reads `terrain.rect` from its terrain list (`map.map_objects`), so the model passes that list in as a sequence of rectangles.
- **Inputs from pygame as parameters.** The key state, the mouse position, `pygame.time.get_ticks()`
  and the stage's clear flag are all passed in as parameters.

Three facts about the code that the model keeps as they are:

- the enemy's fall speed has no cap;
- an airborne enemy that overlaps a tile always snaps onto that tile's top, whether it is rising or falling;
- the player has only horizontal motion: no hit points, gravity or goal handling.

## Model

| member | source | states |
|---|---|---|
| Tiles.Damage | terrain.py:62-65 | Contact damage is 0 or 1, and 1 exactly for the codes 6, 7 and 8. |
| Tiles.IsGoal | terrain.py:67-70 | A goal code is one of the known codes 0..9 and does no damage. |
| Tiles.NewTerrain | terrain.py:33-54 | Construction succeeds exactly for the codes 0..9 and fails with `UnknownCode` otherwise (the lookup in `terrain_indexes` raises). A built tile has the rectangle (gx·40, gy·40, 40, 40) and a frame index below 242. Its damage and goal flags are those of its code. |
| Tiles.KnownCodes | terrain.py:13-24 | The keys of `terrain_indexes` are exactly 0..9, and every value lies below 22·11 = 242, so indexing the frame list cannot fail. |
| Tiles.NoDamagingGoal | terrain.py:62-70 | No code is both damaging and a goal. |
| Tiles.DistinctCellsDisjoint | terrain.py:46-50 | The rectangles of two different grid cells never overlap. |
| Tiles.AdjacentCellsTouch | terrain.py:46-50 | Neighbouring cells share an edge: the right edge of one is the left edge of the next, and likewise bottom and top. |
| Sprites.SpriteWithFrames.LoadSpriteSheet | sprite_with_frames.py:19-30 | The nested loops produce rows·cols frames. Frame k is the sub-rectangle at column k mod cols and row k div cols, each of size (sheetW div cols) × (sheetH div rows). |
| Sprites.FrameAtRowCol | sprite_with_frames.py:22-28 | List position i·cols + j holds the rectangle at (j·w, i·h). |
| Sprites.FrameInsideSheet | sprite_with_frames.py:22-27 | Every frame lies inside the sheet. |
| Sprites.SpriteWithFrames.constructor | sprite_with_frames.py:5-17 | The initial state is frame index 0, row 0, frame rate 60 and last update `now`, with the sliced frames and the given rectangle. |
| Sprites.SpriteWithFrames.FrameAnimation | sprite_with_frames.py:32-38 | When more than `frameRate` has passed, the index becomes (old + 1) mod cols + row·cols, the last-update time becomes `now` and the image becomes that frame. Otherwise the index, image and time are unchanged. The change keeps the index valid. |
| Sprites.NextFrameInRow | sprite_with_frames.py:36-38 | An advanced index lies in [row·cols, row·cols + cols), so it is a valid list index whenever row < rows. |
| Sprites.AdvanceColumn | sprite_with_frames.py:36-37 | n advances from column c of a row land on column (c + n) mod cols of that row. |
| Sprites.AdvanceCycle | sprite_with_frames.py:36-37 | cols consecutive advances on a fixed row return to the starting index. |
| EnemyAI.FirstHit | enemy.py:69-76 | The first tile in list order that overlaps the rectangle: no earlier tile overlaps, and it lies before the end exactly when some tile overlaps. |
| EnemyAI.ScanFirst | enemy.py:84-91 | The `for … break` scan stops at that same first overlapping tile (the end when none overlaps). |
| EnemyAI.Facing | enemy.py:53-56 | The facing step gives +1 or −1, and +1 exactly when the player's x is greater than the enemy's. |
| EnemyAI.SimYClosedForm | enemy.py:39-41 | After k lookahead steps the test height is y − 5k + k(k+1)/10. |
| EnemyAI.Enemy.constructor | enemy.py:6-20 | A new enemy starts at the given position with a 20×20 rectangle, vertical speed 0, direction +1 and not on the ground. |
| EnemyAI.Enemy.CanReachOtherSide | enemy.py:22-49 | The bounded lookahead returns true exactly when, for some k in 1..100, the k-th vertical step lands on a tile. Also required: no earlier horizontal step was blocked and no earlier vertical step landed. It changes no field, and with no tiles it returns false. |
| EnemyAI.BlockedMeansUnreachable | enemy.py:29-37 | A horizontal collision at some step, with nothing met before it, makes the lookahead answer no. |
| EnemyAI.NoLandingMeansUnreachable | enemy.py:29-49 | 100 steps with no collision and no landing make the lookahead answer no. |
| EnemyAI.AirStep | enemy.py:58-76 | An airborne frame moves x by 0.5 in the facing direction and stores that direction. The rectangle keeps its size and follows x. With no landing, the vertical speed grows by 0.2 and y moves by the new speed. On a landing the vertical speed is 0 and y equals `rect.y`. |
| EnemyAI.GroundStep | enemy.py:77-105 | A grounded frame moves 0.5 in the facing direction, or, when that move overlaps a tile, reverses the direction and ends at its old x. y and the rectangle's height, width and `rect.y` are kept. It stays grounded only if it was, and a grounded enemy that leaves the ground does so with vertical speed −5. It stays on the ground exactly when the one-pixel probe finds ground and it was not a blocked walk whose lookahead, in the reversed direction, holds. |
| EnemyAI.ReachesIffFlightLands | enemy.py:22-49 | For a launched enemy, the lookahead in its own direction holds exactly when its airborne frames, all facing that direction, first land within 100 frames. The path's horizontal steps must stay clear of every tile. |
| EnemyAI.ReachMeansLanding | enemy.py:22-49 | A yes from the lookahead at step k is a first landing of the real flight at frame k, on a clear path. |
| EnemyAI.LandingMeansReach | enemy.py:22-49 | When the lookahead answers no, no first landing within 100 frames has a clear path. |
| EnemyAI.SimulationAgreesWithFlight | enemy.py:58-76 | The k-th lookahead step is the first landing exactly when the enemy's airborne frames, facing the jump's direction, land for the first time at frame k. |
| EnemyAI.FlightTracksSimulation | enemy.py:29-41 | Until it lands, the enemy's airborne frames, facing the jump's direction, follow the lookahead's x, y and vertical-speed sequence exactly. |
| EnemyAI.FlightIgnoresStoredDirection | enemy.py:51-76 | Airborne frames never read the stored direction: two starts that differ only in it land at the same frames and, unless already landed, reach the same states. |
| EnemyAI.SameFirstLanding | enemy.py:51-76 | Airborne frames facing d first land at frame k whatever direction the body stored at launch. |
| EnemyAI.LookaheadMatchesFlightFacing | enemy.py:22-76 | For an enemy that has just jumped, whatever its stored direction, the lookahead in direction d holds exactly when its airborne frames facing d first land within 100 frames on a clear path. |
| EnemyAI.LookaheadAsWrittenRunsAway | enemy.py:51-105 | A blocked walk reverses the direction and returns to the old x. The next frame therefore faces the player, toward the wall, and its first airborne step differs from the lookahead's first step, which goes the other way. |
| EnemyAI.WallwardLookaheadNeverHolds | enemy.py:22-37 | After a blocked walk the enemy is back at its old x, and from there a lookahead toward the wall answers no: its first horizontal test rectangle is the one that was just blocked. |
| EnemyAI.LandingSnapsOnTop | enemy.py:58-76 | An airborne frame lands exactly when the moved rectangle overlaps a tile. It then sits on the first such tile in list order, with y = that tile's top − 20, vertical speed 0 and no overlap with it. Without a landing it overlaps no tile. |
| EnemyAI.ProbeLeavesHeight | enemy.py:93-100 | The one-pixel ground probe leaves y, `rect.y` and the rectangle's size exactly as they were. |
| EnemyAI.JumpRule | enemy.py:78-105 | A blocked walk reverses the direction, and the direction stays ±1. The grounded enemy jumps (vertical speed −5, not on the ground) exactly when the probe finds no ground, or when it was blocked and the lookahead in the direction after the turn holds. Otherwise its vertical speed and ground flag are unchanged. |
| EnemyAI.SameStepAnyDirection | enemy.py:53-58 | A frame's outcome does not depend on the stored direction, which the facing step overwrites. |
| EnemyAI.Enemy.Update | enemy.py:51-105 | One frame: after facing the player, the new state is the airborne step or the grounded step of the old state. It keeps the enemy invariant: direction ±1, a 20×20 rectangle, and on the ground ⇒ vertical speed 0. |
| EnemyAI.Enemy.Fall | enemy.py:58-76 | The airborne branch computes exactly `AirStep` of the old state. |
| EnemyAI.Enemy.Walk | enemy.py:77-105 | The grounded branch (walk, reverse, probe, jump) computes exactly `GroundStep` of the old state. |
| EnemyAI.Enemy.WalkOrTurn | enemy.py:78-91 | The walking step moves one step. When the moved rectangle overlaps a tile, the direction flips and the enemy steps back. The result says whether it was blocked. |
| EnemyAI.Enemy.ProbeGround | enemy.py:93-100 | The probe reports whether the rectangle one pixel lower overlaps a tile, and leaves the rectangle exactly as it was. |
| EnemyAI.Enemy.IsOutOfScreen | enemy.py:110-111 | Holds exactly when y > 600. |
| PlayerControl.Player.constructor | player.py:6-10 | The player starts with rectangle (0, 0, 40, 40) and both speeds 0. |
| PlayerControl.Player.MoveLeftRight | player.py:19-25 | The rectangle moves by d, then is clamped to left ≥ 0 and right ≤ 800. Whenever it is at most 800 wide it ends within the screen. |
| PlayerControl.Player.KeyControl | player.py:27-49 | The new speed is `NextSpeed` of the old speed for the keys held. The rectangle then moves by that speed. `rect.y`, width, height and `dy` are unchanged. |
| PlayerControl.NextSpeed | player.py:30-47 | One `key_control` keeps \|dx\| ≤ 5 if it held before. One key alone moves the speed by 0.5 toward its side, or leaves it at a cap. No key takes exactly 0.5 off \|dx\|, stopping at 0, and never changes the sign. |
| PlayerControl.ClampX | player.py:20-25 | The clamped x is at most 800 − w, and at least 0 when the rectangle fits. An in-bounds x is unchanged. Otherwise the result is 0 or 800 − w. |
| PlayerControl.OneKeyAccelerates | player.py:31-38 | LEFT alone subtracts 0.5, stopping at −5. RIGHT alone adds 0.5, stopping at +5. Each changes the speed unless it is already at that cap. |
| PlayerControl.BothKeysAsymmetry | player.py:31-38 | With both keys held, the speed becomes max(dx, −4.5): LEFT is applied and clamped first, then RIGHT. |
| PlayerControl.SpeedStaysBounded | player.py:31-47 | If \|dx\| ≤ 5 before `key_control`, the same holds after it. |
| PlayerControl.DecayTowardZero | player.py:39-47 | With no key held, the speed moves toward 0 by at most 0.5, never changes sign, stays 0 at 0, and snaps to 0 from within 0.5. |
| PlayerControl.DecayMagnitude | player.py:39-47 | With no key held, a frame takes exactly 0.5 off \|dx\|, stopping at 0. |
| PlayerControl.DecayReachesZero | player.py:39-47 | After n key-free frames, \|dx\| = max(\|dx₀\| − 0.5n, 0), so the speed is exactly 0 once 0.5n ≥ \|dx₀\|. |
| PlayerControl.HalfStepNeighbours | player.py:31-47 | One acceleration step either way keeps a multiple of 0.5 a multiple of 0.5. |
| PlayerControl.NextSpeedHalfStep | player.py:31-47 | One `key_control` keeps the speed a whole multiple of 0.5. |
| PlayerControl.SpeedFromRest | player.py:9-47 | From the initial dx = 0, any sequence of key states keeps the speed a multiple of 0.5 within [−5, 5]. |
| PlayerControl.ClampInBounds | player.py:19-25 | A clamped rectangle of width at most 800 has left ≥ 0 and right ≤ 800. |
| PlayerControl.ClampNearest | player.py:22-25 | Clamping leaves an in-bounds position alone; otherwise it moves to the nearest in-bounds position. |
| PlayerControl.StillMoveKeepsPosition | player.py:19-25 | `move_left_right(0)` leaves an in-bounds rectangle unchanged. This assumes only that whole numbers convert exactly. |
| MapEditing.EmptyGrid | map_editor.py:186-192 | A new map, and the fallback after a failed load, has 15 rows of 20 zero cells and yields no terrain. |
| MapEditing.GuardAsWrittenAdmitsMissingCell | map_editor.py:290 | The bounds check as written accepts cell (1, 1) of the map [[0, 0], [0]], which does not exist. |
| MapEditing.GuardsAgreeOnRectangular | map_editor.py:290 | On a map whose rows all have equal length, the written bounds check and the per-row check agree. |
| MapEditing.PaintCell | map_editor.py:290-291 | Painting keeps the row count, keeps a rectangular map rectangular, and keeps the same cells addressable. An existing cell then holds the palette code. |
| MapEditing.PaintChangesOneCell | map_editor.py:285-291 | Painting writes the palette code to exactly the addressed cell when it exists, and no other cell changes. The row count and every row length are kept. Out of bounds, or on an empty map, nothing changes. |
| MapEditing.PaintedCellListed | map_editor.py:285-292 | After painting an existing cell, the rebuilt terrain list holds that cell exactly when the code is not 0, so code 0 erases it. |
| MapEditing.GridCellsMembers | map_editor.py:221-225 | A cell (x, y, v) is listed exactly when row y, column x of the map holds v ≠ 0. |
| MapEditing.GridCellsOrdered | map_editor.py:222-223 | The listed cells come in strictly increasing row-major order, so no cell appears twice. |
| MapEditing.TilesFor | map_editor.py:226-229 | One terrain per listed cell, in the same order: terrain i is the one built from cell i's column, row and code (`TileOf`). |
| MapEditing.TileOf | map_editor.py:226-227 | The terrain built from a known cell has `gridX` = column, `gridY` = row, the cell's rectangle, and the damage and goal flags of its code. |
| MapEditing.ScanRow | map_editor.py:223-229 | The inner loop over one row either appends that row's tiles to those of the rows before it, or stops at the first unknown code with the tiles built before it. |
| MapEditing.ScanCell | map_editor.py:224-229 | One column of the rebuild either appends the cell's tile (nothing for code 0) or stops at an unknown code with the tiles built before it. |
| MapEditing.MapEditor.UpdateTerrains | map_editor.py:219-237 | The rebuild succeeds exactly when every non-zero code is known. The terrain list is then `TilesFor` of the non-zero cells and the cursor tile sits at the mouse's cell. Otherwise the list holds the tiles of the cells before the first unknown code (the `KeyError` leaves it so). |
| MapEditing.TruncDivAgreesOnScreen | map_editor.py:233-234 | `int(x / 40)` equals `x // 40` for every on-screen position. For a negative x they differ exactly when x is not a multiple of 40. |
| MapEditing.MapEditor.constructor | map_editor.py:176-198 | With no selection the editor does not run. A new map is named 新しいマップ, has no file path and is 15×20 zeros. An existing map takes the loaded name (default 名前なし) and data (default []), or 15×20 zeros when loading fails. The palette starts at 1 with no terrain. A blank map has no cells. |
| MapEditing.MapEditor.Open | map_editor.py:164-200 | `__init__` in full. It sets the same map fields as the constructor, and the rebuild changes none of them. With no selection it returns before the rebuild. A blank map rebuilds to an empty terrain list. Otherwise the rebuild succeeds exactly when every code is known, and the list and cursor tile are then those of `UpdateTerrains`. |
| MapEditing.MapEditor.HandleKey | map_editor.py:263-282 | Digit key k sets the palette code to k, so it stays in 0..9. Other keys leave it. |
| MapEditing.MapEditor.PaintAt | map_editor.py:285-291 | Holding the mouse paints `PaintCell` at (x // 40, y // 40). |
| MapEditing.MapList | map_editor.py:82-90 | With no loaded map the list is exactly one placeholder marked new. Otherwise it is the loaded list. It is never empty. |
| MapEditing.CursorStaysOnList | map_editor.py:100-104 | UP moves the cursor up by one, stopping at 0. DOWN moves it down by one, stopping at the last entry. Both keep it on the list. |
| MapEditing.MapSelectionUI.constructor | map_editor.py:44-51 | The list is `MapList` of the loaded entries, the cursor is at 0 and the screen is running. |
| MapEditing.MapSelectionUI.HandleEvent | map_editor.py:94-112 | QUIT or ESC ends with no choice. UP and DOWN move the cursor within the list. N chooses a new map. ENTER chooses the entry under the cursor, or a new map for the placeholder. |
| Session.NextStage | game.py:39-42 | The next stage index is (i + 1) mod n, which lies in [0, n). Clearing the last stage wraps to 0. |
| Session.AfterClearsModular | game.py:39-42 | k consecutive clears from stage i lead to stage (i + k) mod n. |
| Session.FullRoundReturns | game.py:39-42 | After as many clears as there are stages, play is back at the starting stage. |
| Session.Game.constructor | game.py:7-14 | The game starts at stage index 0 with the stage built from the first stage file. |
| Session.Game.StageInit | game.py:16-17 | The stage is built from the stage file the index names. The index always lies within the list. |
| Session.Game.CheckStageClear | game.py:37-43 | A clear moves to `NextStage` and builds that stage. Without a clear, the index and the stage are unchanged. The index stays within the list. |

## Left out

- Rendering is not modelled: every `draw` method, sprite scaling and flipping, the UI, the title screen, the background, fonts and `MapSelectionUI._draw`.
- File and JSON I/O is not modelled: `map.py`, `MapEditor._load_map` and `_save_map`, and the directory walk in `_load_map_list`. The loader's outcome is an input instead (`LoadedMap`, and the entries found), and the save key is an event that changes nothing.
- Audio (`sound_manager.py`) is not modelled: it only wraps the mixer.
- The event and clock loops (`Game.run`, `MapEditor.run`, `MapSelectionUI.run`) are not modelled as loops. Their per-event steps are.
- IEEE float rounding of 0.2 and 0.5 is not modelled. pygame's float-to-int rule for `Rect` coordinates is abstract (`px`).
- `stage.py` is not modelled: it only delegates to `Player`. The model's `Stage` records only its file name.
- The source has three broken calls, and the model keeps only their logic:
  - `game.py:17` calls `Stage(surface, filename)`, but `Stage.__init__` takes only the surface;
  - `game.py:38` reads `stage.is_clear`, which `Stage` never defines, so it is an input flag here;
  - `terrain.py:57-60` passes an `is_center` argument that `SpriteWithFrames.draw` does not accept.
- Collision is an assumption: `Geometry.Collide` is strict overlap on both axes, not pygame's own code.
- EnemyAI.ReachesIffFlightLands: the real frames it compares with face the jump's direction throughout. In the game the enemy re-faces the player every frame. After a blocked walk, while the player stays on the same side, the next frame faces the wall, the opposite of the lookahead's direction (`LookaheadAsWrittenRunsAway`). The model does not say where such a jump ends. By `LandingSnapsOnTop`, a first airborne frame that overlaps the wall snaps onto the wall's top.
- EnemyAI.Enemy.Update: the terrain list is a list of rectangles, so aliasing between tiles and the map object is not modelled.
- MapEditing.MapEditor.constructor: with no selection, `__init__` returns before setting the map fields and the terrain list. The model sets them to neutral values (not running, empty map, no terrain). `Open` then skips the rebuild, as `__init__` does.
- MapEditing.PaintCell and MapEditing.MapEditor.PaintAt: `PaintCell` holds the corrected per-row bounds check (see Findings), and `PaintAt` paints through it, so neither uses the check as written; on a ragged map they leave the grid unchanged where the source raises `IndexError`.
- MapEditing.MapEditor.UpdateTerrains: the exception is an `ok = false` result. The editor's behaviour after the exception propagates is not modelled.
- Player hit points, gravity, jumps, landing damage, goal detection, the clear timer, enemy spawning and stage reset are not modelled: no core file implements them.

## Findings

| source | as written | input that shows it | evidently intended | confidence | as-written member | corrected member |
|---|---|---|---|---|---|---|
| map_editor.py:290 | The column index is checked against the length of row 0, `len(self.map_in_editing[0])`, and row `grid_y` is then indexed, whose length may be smaller. | A loaded map `[[0, 0], [0]]` with the mouse over cell (1, 1) passes the check, and `map_in_editing[1][1]` raises `IndexError`. | Check the column against the length of the row being painted. | not executed | MapEditing.GuardAsWrittenAdmitsMissingCell | MapEditing.PaintChangesOneCell |
