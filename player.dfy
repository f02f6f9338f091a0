/** Player horizontal kinematics (player.py). */
module PlayerControl {
  import opened Geometry
  import opened Settings

  function Min(a: real, b: real): (m: real) { if a <= b then a else b }
  function Max(a: real, b: real): (m: real) { if a >= b then a else b }
  function Abs(a: real): (m: real) { if a >= 0.0 then a else -a }

  /**
   * The speed key_control leaves, stated per key combination: pressing LEFT
   * subtracts one acceleration step down to -max, RIGHT adds one up to +max,
   * both apply LEFT then RIGHT, and no key decays the speed linearly to 0.
   */
  function NextSpeed(dx: real, left: bool, right: bool): (r: real)
    ensures Abs(dx) <= PlayerMaxSpeed ==> Abs(r) <= PlayerMaxSpeed
    ensures left != right ==>
      r == dx + (if right then PlayerAcceleration else -PlayerAcceleration) || Abs(r) == PlayerMaxSpeed
    ensures !left && !right ==> Abs(r) == Max(Abs(dx) - PlayerAcceleration, 0.0) && r * dx >= 0.0
  {
    if left && right then Min(Max(dx - PlayerAcceleration, -PlayerMaxSpeed) + PlayerAcceleration, PlayerMaxSpeed)
    else if left then Max(dx - PlayerAcceleration, -PlayerMaxSpeed)
    else if right then Min(dx + PlayerAcceleration, PlayerMaxSpeed)
    else if dx > 0.0 then Max(dx - PlayerAcceleration, 0.0)
    else if dx < 0.0 then Min(dx + PlayerAcceleration, 0.0)
    else dx
  }

  /** The x a rectangle of width w is clamped to: at least 0, then at most Width - w. */
  function ClampX(x: int, w: int): (c: int)
    ensures c <= Width - w
    ensures 0 <= w <= Width ==> 0 <= c
    ensures 0 <= x && x + w <= Width ==> c == x
    ensures c == x || c == 0 || c == Width - w
  {
    var atLeastZero := if x >= 0 then x else 0;
    if atLeastZero <= Width - w then atLeastZero else Width - w
  }

  /** A clamped rectangle lies in [0, Width] whenever it fits at all. */
  lemma ClampInBounds(x: int, w: int)
    requires 0 <= w <= Width
    ensures 0 <= ClampX(x, w) && ClampX(x, w) + w <= Width
  {
  }

  /** Clamping leaves an in-bounds position alone, and otherwise moves to the nearest in-bounds one. */
  lemma ClampNearest(x: int, w: int, z: int)
    requires 0 <= w <= Width && 0 <= z && z + w <= Width
    ensures 0 <= x && x + w <= Width ==> ClampX(x, w) == x
    ensures var c := ClampX(x, w); (if c >= x then c - x else x - c) <= (if z >= x then z - x else x - z)
  {
  }

  /**
   * One arrow key alone: LEFT takes one acceleration step off the speed and
   * RIGHT adds one, each stopping at the speed cap in its direction.
   */
  lemma OneKeyAccelerates(dx: real)
    requires Abs(dx) <= PlayerMaxSpeed
    ensures var l := NextSpeed(dx, true, false);
      && -PlayerMaxSpeed <= l <= dx && (dx > -PlayerMaxSpeed ==> l < dx)
      && (l == dx - PlayerAcceleration <==> dx - PlayerAcceleration >= -PlayerMaxSpeed)
      && (l != dx - PlayerAcceleration ==> l == -PlayerMaxSpeed)
    ensures var r := NextSpeed(dx, false, true);
      && dx <= r <= PlayerMaxSpeed && (dx < PlayerMaxSpeed ==> dx < r)
      && (r == dx + PlayerAcceleration <==> dx + PlayerAcceleration <= PlayerMaxSpeed)
      && (r != dx + PlayerAcceleration ==> r == PlayerMaxSpeed)
  {
  }

  /** The speed bound |dx| <= max survives one key_control. */
  lemma SpeedStaysBounded(dx: real, left: bool, right: bool)
    requires Abs(dx) <= PlayerMaxSpeed
    ensures Abs(NextSpeed(dx, left, right)) <= PlayerMaxSpeed
  {
  }

  /** With no key pressed the speed moves toward 0 by at most one step, keeps its sign, and 0 stays 0. */
  lemma DecayTowardZero(dx: real)
    ensures var n := NextSpeed(dx, false, false);
      && Abs(n) <= Abs(dx) && Abs(dx) - Abs(n) <= PlayerAcceleration
      && (dx >= 0.0 ==> n >= 0.0) && (dx <= 0.0 ==> n <= 0.0)
      && (dx == 0.0 ==> n == 0.0)
      && (Abs(dx) <= PlayerAcceleration ==> n == 0.0)
  {
  }

  /** No key for one frame takes exactly one step off the magnitude, down to 0. */
  lemma DecayMagnitude(dx: real)
    ensures Abs(NextSpeed(dx, false, false)) == Max(Abs(dx) - PlayerAcceleration, 0.0)
  {
  }

  /** Frames with neither arrow key held. */
  predicate NoKeys(frames: seq<Keys>) {
    forall i :: 0 <= i < |frames| ==> !frames[i].left && !frames[i].right
  }

  /** m idle frames take m steps off the magnitude, so the speed is exactly 0 once m steps cover it. */
  lemma {:induction false} DecayReachesZero(dx: real, frames: seq<Keys>)
    requires NoKeys(frames)
    ensures Abs(SpeedAfter(dx, frames)) == Max(Abs(dx) - PlayerAcceleration * (|frames| as real), 0.0)
    ensures PlayerAcceleration * (|frames| as real) >= Abs(dx) ==> SpeedAfter(dx, frames) == 0.0
  {
    if |frames| > 0 {
      var prefix := frames[..|frames| - 1];
      assert NoKeys(prefix) by {
        forall i | 0 <= i < |prefix| ensures !prefix[i].left && !prefix[i].right {
          assert prefix[i] == frames[i];
        }
      }
      DecayReachesZero(dx, prefix);
      DecayMagnitude(SpeedAfter(dx, prefix));
      assert ((|frames| - 1) as real) == (|frames| as real) - 1.0;
    }
  }

  /** Holding both keys from a bounded speed keeps it, except that -max creeps up by one step. */
  lemma BothKeysAsymmetry(dx: real)
    requires Abs(dx) <= PlayerMaxSpeed
    ensures NextSpeed(dx, true, true) == Max(dx, -PlayerMaxSpeed + PlayerAcceleration)
  {
  }

  /** dx is a whole number of acceleration steps (half-units). */
  predicate IsHalfStep(v: real) {
    (2.0 * v).Floor as real == 2.0 * v
  }

  /** One half-unit either way stays on the lattice. */
  lemma HalfStepNeighbours(v: real)
    requires IsHalfStep(v)
    ensures IsHalfStep(v - PlayerAcceleration) && IsHalfStep(v + PlayerAcceleration)
  {
    var n := (2.0 * v).Floor;
    assert 2.0 * (v - PlayerAcceleration) == (n - 1) as real;
    assert 2.0 * (v + PlayerAcceleration) == (n + 1) as real;
  }

  /** The values the clamps of key_control can produce are on the lattice. */
  lemma HalfStepBounds()
    ensures IsHalfStep(0.0) && IsHalfStep(PlayerMaxSpeed) && IsHalfStep(-PlayerMaxSpeed)
    ensures IsHalfStep(-PlayerMaxSpeed + PlayerAcceleration)
  {
    assert 2.0 * PlayerMaxSpeed == 10 as real;
    assert 2.0 * (-PlayerMaxSpeed) == (-10) as real;
    assert 2.0 * (-PlayerMaxSpeed + PlayerAcceleration) == (-9) as real;
  }

  /** One key_control keeps dx on the half-unit lattice. */
  lemma NextSpeedHalfStep(dx: real, left: bool, right: bool)
    requires IsHalfStep(dx)
    ensures IsHalfStep(NextSpeed(dx, left, right))
  {
    var r := NextSpeed(dx, left, right);
    HalfStepNeighbours(dx);
    HalfStepBounds();
    if left && right {
      assert r == dx || r == -PlayerMaxSpeed + PlayerAcceleration || r == PlayerMaxSpeed;
    } else if left {
      assert r == dx - PlayerAcceleration || r == -PlayerMaxSpeed;
    } else if right {
      assert r == dx + PlayerAcceleration || r == PlayerMaxSpeed;
    } else {
      assert r == dx - PlayerAcceleration || r == dx + PlayerAcceleration || r == 0.0 || r == dx;
    }
  }

  /** The key state of one frame (LEFT held, RIGHT held). */
  datatype Keys = Keys(left: bool, right: bool)

  /** The speed after a run of frames, starting from dx. */
  function SpeedAfter(dx: real, frames: seq<Keys>): (v: real)
    decreases |frames|
  {
    if |frames| == 0 then dx
    else NextSpeed(SpeedAfter(dx, frames[..|frames| - 1]), frames[|frames| - 1].left, frames[|frames| - 1].right)
  }

  /** From rest, whatever keys are pressed, dx is a half-unit multiple within [-max, max]. */
  lemma {:induction false} SpeedFromRest(frames: seq<Keys>)
    ensures IsHalfStep(SpeedAfter(0.0, frames)) && Abs(SpeedAfter(0.0, frames)) <= PlayerMaxSpeed
  {
    if |frames| > 0 {
      var prefix := frames[..|frames| - 1];
      var last := frames[|frames| - 1];
      SpeedFromRest(prefix);
      NextSpeedHalfStep(SpeedAfter(0.0, prefix), last.left, last.right);
      SpeedStaysBounded(SpeedAfter(0.0, prefix), last.left, last.right);
    } else {
      assert (2.0 * 0.0).Floor == 0;
    }
  }

  class Player {
    var rect: Rect
    var dx: real
    var dy: real

    /** Player.__init__: a GridSize square at the origin, at rest. */
    constructor ()
      ensures rect == Rect(0, 0, GridSize, GridSize) && dx == 0.0 && dy == 0.0
    {
      rect := Rect(0, 0, GridSize, GridSize);
      dx := 0.0;
      dy := 0.0;
    }

    /** move_left_right: shift by d (through pygame's int conversion px) and clamp to the window. */
    method MoveLeftRight(d: real, px: real -> int)
      modifies this
      ensures rect == old(rect).(x := ClampX(px(old(rect).x as real + d), old(rect).w))
      ensures dx == old(dx) && dy == old(dy)
      ensures rect.w <= Width ==> 0 <= rect.Left() && rect.Right() <= Width
    {
      rect := rect.(x := px(rect.x as real + d));
      if rect.Left() < 0 {
        rect := rect.(x := 0);
      }
      if rect.Right() > Width {
        rect := rect.(x := Width - rect.w);
      }
    }

    /** key_control with the LEFT/RIGHT key states passed in. */
    method KeyControl(left: bool, right: bool, px: real -> int)
      modifies this
      ensures dx == NextSpeed(old(dx), left, right)
      ensures rect == old(rect).(x := ClampX(px(old(rect).x as real + dx), old(rect).w))
      ensures rect.y == old(rect).y && rect.w == old(rect).w && rect.h == old(rect).h && dy == old(dy)
    {
      if left {
        dx := dx - PlayerAcceleration;
        if dx < -PlayerMaxSpeed {
          dx := -PlayerMaxSpeed;
        }
      }
      if right {
        dx := dx + PlayerAcceleration;
        if dx > PlayerMaxSpeed {
          dx := PlayerMaxSpeed;
        }
      }
      if !left && !right {
        if dx > 0.0 {
          dx := dx - PlayerAcceleration;
          if dx < 0.0 {
            dx := 0.0;
          }
        }
        if dx < 0.0 {
          dx := dx + PlayerAcceleration;
          if dx > 0.0 {
            dx := 0.0;
          }
        }
      }
      MoveLeftRight(dx, px);
    }
  }

  /** move_left_right(0) leaves an in-bounds rectangle where it is. */
  lemma StillMoveKeepsPosition(r: Rect, px: real -> int)
    requires ExactOnIntegers(px)
    requires 0 <= r.Left() && r.Right() <= Width
    ensures r.(x := ClampX(px(r.x as real + 0.0), r.w)) == r
  {
    assert (r.x as real + 0.0).Floor == r.x;
  }
}
