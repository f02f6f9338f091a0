/** Game-wide constants (settings.py). */
module Settings {
  /** Window size in pixels. */
  const Width: int := 800
  const Height: int := 600

  /** Side of one map cell in pixels. */
  const GridSize: int := 40

  /** Horizontal speed cap and per-frame acceleration of the player. */
  const PlayerMaxSpeed: real := 5.0
  const PlayerAcceleration: real := 0.5

  /** The stage files, played in this order. */
  const StageFileNames: seq<string> := ["Stage1.json", "Stage2.json", "Stage3.json", "Stage4.json"]
}
