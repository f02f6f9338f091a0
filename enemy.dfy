/**
 * Enemy patrol/jump AI (enemy.py). The terrain list map.map_objects is modelled
 * by the terrains' rectangles, the only thing the enemy reads of them.
 */
module EnemyAI {
  import opened Geometry
  import Settings

  /** The constants Enemy.__init__ fixes for every enemy. */
  const EnemyWidth: int := 20
  const EnemyHeight: int := 20
  const SpeedX: real := 0.5
  const Gravity: real := 0.2
  const JumpPower: real := -5.0
  const JumpDistance: nat := 100

  /** Index of the first rectangle of `obs` that `r` collides with, or |obs| if none does. */
  function FirstHit(r: Rect, obs: seq<Rect>): (k: nat)
    ensures k <= |obs|
    ensures forall j :: 0 <= j < k ==> !Collide(r, obs[j])
    ensures k < |obs| ==> Collide(r, obs[k])
    ensures k < |obs| <==> HitsAny(r, obs)
  {
    if |obs| == 0 then 0
    else if Collide(r, obs[0]) then 0
    else 1 + FirstHit(r, obs[1..])
  }

  /** Some rectangle of `obs` collides with `r`. */
  predicate HitsAny(r: Rect, obs: seq<Rect>) {
    exists i :: 0 <= i < |obs| && Collide(r, obs[i])
  }

  /** The `for terrain in map.map_objects: if colliderect: ... break` scan. */
  method ScanFirst(r: Rect, obs: seq<Rect>) returns (k: nat)
    ensures k <= |obs|
    ensures forall j :: 0 <= j < k ==> !Collide(r, obs[j])
    ensures k < |obs| ==> Collide(r, obs[k])
    ensures k == FirstHit(r, obs)
  {
    k := 0;
    while k < |obs| && !Collide(r, obs[k])
      invariant k <= |obs|
      invariant forall j :: 0 <= j < k ==> !Collide(r, obs[j])
    {
      k := k + 1;
    }
  }

  /** Direction that faces the player: +1 exactly when the player's rect.x is right of x. */
  function Facing(playerX: int, x: real): (d: int)
    ensures d == 1 || d == -1
    ensures d == 1 <==> playerX as real > x
  {
    if playerX as real > x then 1 else -1
  }

  // ---------------------------------------------------------------------------
  // The jump lookahead of can_reach_other_side, as a trajectory.

  /** test_x after j steps from x in direction dir. */
  function SimX(x: real, dir: int, j: nat): (tx: real) {
    if j == 0 then x else SimX(x, dir, j - 1) + SpeedX * (dir as real)
  }

  /** test_speed_y after j steps of a jump. */
  function SimVy(j: nat): (vy: real) {
    JumpPower + Gravity * (j as real)
  }

  /** test_y after j steps of a jump from y. */
  function SimY(y: real, j: nat): (ty: real) {
    if j == 0 then y else SimY(y, j - 1) + SimVy(j)
  }

  /** The test rectangle of step j after the horizontal move (old height). */
  function HorizRect(px: real -> int, x: real, y: real, dir: int, j: nat): (r: Rect)
    requires j >= 1
  {
    Rect(px(SimX(x, dir, j)), px(SimY(y, j - 1)), EnemyWidth, EnemyHeight)
  }

  /** The test rectangle of step j after the vertical move. */
  function LandRect(px: real -> int, x: real, y: real, dir: int, j: nat): (r: Rect) {
    Rect(px(SimX(x, dir, j)), px(SimY(y, j)), EnemyWidth, EnemyHeight)
  }

  /** Step j's horizontal move runs into terrain. */
  predicate BlockedAt(px: real -> int, x: real, y: real, dir: int, obs: seq<Rect>, j: nat)
    requires j >= 1
  {
    HitsAny(HorizRect(px, x, y, dir, j), obs)
  }

  /** Step j's vertical move meets terrain. */
  predicate LandsAt(px: real -> int, x: real, y: real, dir: int, obs: seq<Rect>, j: nat) {
    HitsAny(LandRect(px, x, y, dir, j), obs)
  }

  /** Up to (not including) step k no step ran into terrain horizontally or met terrain after falling. */
  predicate ClearBefore(px: real -> int, x: real, y: real, dir: int, obs: seq<Rect>, k: nat) {
    forall j :: 1 <= j < k ==> !BlockedAt(px, x, y, dir, obs, j) && !LandsAt(px, x, y, dir, obs, j)
  }

  /** Step k is where the lookahead answers yes: its horizontal move is free and its vertical move lands. */
  predicate ReachStep(px: real -> int, x: real, y: real, dir: int, obs: seq<Rect>, k: nat)
    requires k >= 1
  {
    LandsAt(px, x, y, dir, obs, k) && !BlockedAt(px, x, y, dir, obs, k) && ClearBefore(px, x, y, dir, obs, k)
  }

  /**
   * A jump from (x, y) in direction dir reaches the other side: some step
   * k <= JumpDistance meets terrain after its vertical move, and no step up
   * to k ran into terrain horizontally nor met terrain earlier.
   */
  predicate ReachesOtherSide(px: real -> int, x: real, y: real, dir: int, obs: seq<Rect>) {
    exists k :: 1 <= k <= JumpDistance && ReachStep(px, x, y, dir, obs, k)
  }

  /** A horizontal collision at step s, with nothing met before it, ends the lookahead with no. */
  lemma BlockedMeansUnreachable(px: real -> int, x: real, y: real, dir: int, obs: seq<Rect>, s: nat)
    requires s >= 1 && ClearBefore(px, x, y, dir, obs, s) && BlockedAt(px, x, y, dir, obs, s)
    ensures !ReachesOtherSide(px, x, y, dir, obs)
  {
    forall m | 1 <= m <= JumpDistance ensures !ReachStep(px, x, y, dir, obs, m) {
      if m > s {
        assert !ClearBefore(px, x, y, dir, obs, m);
      }
    }
  }

  /** JumpDistance steps with nothing met end the lookahead with no. */
  lemma NoLandingMeansUnreachable(px: real -> int, x: real, y: real, dir: int, obs: seq<Rect>)
    requires ClearBefore(px, x, y, dir, obs, JumpDistance + 1)
    ensures !ReachesOtherSide(px, x, y, dir, obs)
  {
    forall m | 1 <= m <= JumpDistance ensures !ReachStep(px, x, y, dir, obs, m) {
      assert !LandsAt(px, x, y, dir, obs, m);
    }
  }

  /** test_y in closed form: y - 5k + k(k+1)/10. */
  lemma {:induction false} SimYClosedForm(y: real, k: nat)
    ensures SimY(y, k) == y - 5.0 * (k as real) + (k as real) * ((k + 1) as real) / 10.0
  {
    if k > 0 {
      SimYClosedForm(y, k - 1);
      var K := k as real;
      var P := (K - 1.0) * K;
      var Q := K * (K + 1.0);
      assert ((k - 1) as real) == K - 1.0 && ((k - 1 + 1) as real) == K;
      assert SimY(y, k - 1) == y - 5.0 * (K - 1.0) + P / 10.0;
      assert SimY(y, k) == SimY(y, k - 1) + (JumpPower + Gravity * K);
      assert Q == P + 2.0 * K;
      assert Q / 10.0 == P / 10.0 + Gravity * K;
    }
  }

  // ---------------------------------------------------------------------------
  // One frame of Enemy.update, as functions of the enemy's fields.

  /** The fields Enemy.update reads and writes. */
  datatype Body = Body(x: real, y: real, rect: Rect, speedY: real, direction: int, onGround: bool)

  /** The airborne branch of update: drift, fall, and land on the first terrain overlapped. */
  function AirStep(b: Body, face: int, obs: seq<Rect>, px: real -> int): (a: Body)
    ensures a.direction == face && a.x == b.x + SpeedX * (face as real)
    ensures a.rect.x == px(a.x) && a.rect.w == b.rect.w && a.rect.h == b.rect.h
    ensures a.onGround ==> a.speedY == 0.0 && a.y == a.rect.y as real
    ensures !a.onGround ==> a.speedY == b.speedY + Gravity && a.y == b.y + a.speedY && a.rect.y == px(a.y)
  {
    var nx := b.x + SpeedX * (face as real);
    var vy := b.speedY + Gravity;
    var ny := b.y + vy;
    var moved := b.rect.(x := px(nx), y := px(ny));
    var k := FirstHit(moved, obs);
    if k < |obs| then
      var top := obs[k].Top() - EnemyHeight;
      Body(nx, top as real, moved.(y := top), 0.0, face, true)
    else
      Body(nx, ny, moved, vy, face, false)
  }

  /**
   * The grounded branch of update: walk, turn round on a wall, probe one pixel
   * down, and jump when there is no ground or when the wall was hit and the
   * lookahead, run in the direction after the turn (enemy.py:102), lands.
   */
  function GroundStep(b: Body, face: int, obs: seq<Rect>, px: real -> int): (g: Body)
    ensures var blocked := HitsAny(b.rect.(x := px(b.x + SpeedX * (face as real))), obs);
      && g.direction == (if blocked then -face else face)
      && g.x == (if blocked then b.x else b.x + SpeedX * (face as real))
      && g.rect == b.rect.(x := px(g.x)) && g.y == b.y
    ensures g.onGround ==> b.onGround && g.speedY == b.speedY
    ensures b.onGround && !g.onGround ==> g.speedY == JumpPower
    ensures (face == 1 || face == -1) ==>
      (g.onGround <==>
         && b.onGround && HitsAny(g.rect.(y := g.rect.y + 1), obs)
         && !(g.direction == -face && ReachesOtherSide(px, g.x, g.y, g.direction, obs)))
  {
    var x1 := b.x + SpeedX * (face as real);
    var r1 := b.rect.(x := px(x1));
    var blocked := HitsAny(r1, obs);
    var dir := if blocked then -face else face;
    var x2 := if blocked then x1 + SpeedX * (dir as real) else x1;
    var r2 := if blocked then r1.(x := px(x2)) else r1;
    var grounded := HitsAny(r2.(y := r2.y + 1), obs);
    var jump := !grounded || (blocked && ReachesOtherSide(px, x2, b.y, dir, obs));
    Body(x2, b.y, r2, if jump then JumpPower else b.speedY, dir, if jump then false else b.onGround)
  }

  /** The airborne step does not read the stored direction. */
  lemma SameAirStepAnyDirection(b: Body, b': Body, face: int, obs: seq<Rect>, px: real -> int)
    requires b' == b.(direction := b'.direction)
    ensures AirStep(b', face, obs, px) == AirStep(b, face, obs, px)
  {
    assert b'.x == b.x && b'.y == b.y && b'.rect == b.rect && b'.speedY == b.speedY;
  }

  /** The grounded step does not read the stored direction. */
  lemma SameGroundStepAnyDirection(b: Body, b': Body, face: int, obs: seq<Rect>, px: real -> int)
    requires b' == b.(direction := b'.direction)
    ensures GroundStep(b', face, obs, px) == GroundStep(b, face, obs, px)
  {
    assert b'.x == b.x && b'.y == b.y && b'.rect == b.rect && b'.speedY == b.speedY && b'.onGround == b.onGround;
  }

  /** Neither step reads the stored direction: it is recomputed from the player first. */
  lemma SameStepAnyDirection(b: Body, b': Body, face: int, obs: seq<Rect>, px: real -> int)
    requires b' == b.(direction := b'.direction)
    ensures AirStep(b', face, obs, px) == AirStep(b, face, obs, px)
    ensures GroundStep(b', face, obs, px) == GroundStep(b, face, obs, px)
  {
    SameAirStepAnyDirection(b, b', face, obs, px);
    SameGroundStepAnyDirection(b, b', face, obs, px);
  }

  /** A body as it leaves the ground: jump speed, airborne, enemy-sized. */
  predicate Launched(b: Body) {
    b.speedY == JumpPower && !b.onGround && b.rect.w == EnemyWidth && b.rect.h == EnemyHeight
    && (b.direction == 1 || b.direction == -1)
  }

  /** n airborne frames with the player kept on side `face`; a landed body stays put. */
  function Flight(b: Body, face: int, obs: seq<Rect>, px: real -> int, n: nat): (f: Body) {
    if n == 0 then b
    else
      var p := Flight(b, face, obs, px, n - 1);
      if p.onGround then p else AirStep(p, face, obs, px)
  }

  /** Once the flight has landed it stays landed. */
  lemma {:induction false} FlightStaysLanded(b: Body, face: int, obs: seq<Rect>, px: real -> int, m: nat, n: nat)
    requires m <= n && Flight(b, face, obs, px, m).onGround
    ensures Flight(b, face, obs, px, n) == Flight(b, face, obs, px, m)
  {
    if m < n {
      FlightStaysLanded(b, face, obs, px, m, n - 1);
    }
  }

  /** While the simulation has met no terrain, the real flight follows the simulated trajectory. */
  lemma {:induction false} FlightTracksSimulation(b: Body, obs: seq<Rect>, px: real -> int, n: nat)
    requires Launched(b)
    requires forall j :: 1 <= j <= n ==> !LandsAt(px, b.x, b.y, b.direction, obs, j)
    ensures var f := Flight(b, b.direction, obs, px, n);
      && f.x == SimX(b.x, b.direction, n) && f.y == SimY(b.y, n) && f.speedY == SimVy(n)
      && !f.onGround && f.rect.w == EnemyWidth && f.rect.h == EnemyHeight
      && (n >= 1 ==> f.rect == LandRect(px, b.x, b.y, b.direction, n))
  {
    if n > 0 {
      FlightTracksSimulation(b, obs, px, n - 1);
      var f := Flight(b, b.direction, obs, px, n - 1);
      assert Flight(b, b.direction, obs, px, n) == AirStep(f, b.direction, obs, px);
      var moved := f.rect.(x := px(f.x + SpeedX * (b.direction as real)), y := px(f.y + (f.speedY + Gravity)));
      assert moved == LandRect(px, b.x, b.y, b.direction, n);
      assert !LandsAt(px, b.x, b.y, b.direction, obs, n);
    }
  }

  /** One frame past a simulated trajectory with no landing yet: the flight lands exactly when the simulation does. */
  lemma FlightStep(b: Body, obs: seq<Rect>, px: real -> int, n: nat)
    requires Launched(b)
    requires forall j :: 1 <= j <= n ==> !LandsAt(px, b.x, b.y, b.direction, obs, j)
    ensures Flight(b, b.direction, obs, px, n + 1).onGround <==> LandsAt(px, b.x, b.y, b.direction, obs, n + 1)
  {
    FlightTracksSimulation(b, obs, px, n);
    var f := Flight(b, b.direction, obs, px, n);
    assert Flight(b, b.direction, obs, px, n + 1) == AirStep(f, b.direction, obs, px);
    var moved := f.rect.(x := px(f.x + SpeedX * (b.direction as real)), y := px(f.y + (f.speedY + Gravity)));
    assert moved == LandRect(px, b.x, b.y, b.direction, n + 1);
  }

  /** The real flight is airborne after frame k - 1 and on the ground after frame k. */
  predicate FirstLandingAt(b: Body, obs: seq<Rect>, px: real -> int, k: nat)
    requires k >= 1
  {
    !Flight(b, b.direction, obs, px, k - 1).onGround && Flight(b, b.direction, obs, px, k).onGround
  }

  /** No simulated step before k met terrain after its vertical move. */
  predicate NoLandingBefore(px: real -> int, x: real, y: real, dir: int, obs: seq<Rect>, k: nat) {
    forall j :: 1 <= j < k ==> !LandsAt(px, x, y, dir, obs, j)
  }

  /**
   * The simulation's first landing is at step k exactly when the real flight
   * (facing the jump's direction every frame) first lands at frame k.
   */
  lemma {:induction false} SimulationAgreesWithFlight(b: Body, obs: seq<Rect>, px: real -> int, k: nat)
    requires Launched(b) && k >= 1
    ensures (LandsAt(px, b.x, b.y, b.direction, obs, k) && NoLandingBefore(px, b.x, b.y, b.direction, obs, k))
        <==> FirstLandingAt(b, obs, px, k)
  {
    var dir := b.direction;
    if NoLandingBefore(px, b.x, b.y, dir, obs, k) {
      FlightTracksSimulation(b, obs, px, k - 1);
      FlightStep(b, obs, px, k - 1);
    } else if !Flight(b, dir, obs, px, k - 1).onGround {
      NoEarlyLanding(b, obs, px, k - 1, k - 1);
    }
  }

  /** A flight still airborne after frame m met no terrain in the simulation up to step n <= m. */
  lemma {:induction false} NoEarlyLanding(b: Body, obs: seq<Rect>, px: real -> int, m: nat, n: nat)
    requires Launched(b) && n <= m && !Flight(b, b.direction, obs, px, m).onGround
    ensures forall j :: 1 <= j <= n ==> !LandsAt(px, b.x, b.y, b.direction, obs, j)
  {
    if n > 0 {
      NoEarlyLanding(b, obs, px, m, n - 1);
      FlightStep(b, obs, px, n - 1);
      if Flight(b, b.direction, obs, px, n).onGround {
        FlightStaysLanded(b, b.direction, obs, px, n, m);
      }
    }
  }

  /** No simulated step up to k runs into terrain horizontally. */
  predicate ClearPathTo(px: real -> int, x: real, y: real, dir: int, obs: seq<Rect>, k: nat) {
    forall j :: 1 <= j <= k ==> !BlockedAt(px, x, y, dir, obs, j)
  }

  /**
   * can_reach_other_side holds exactly when the real flight from the launch
   * point first lands within JumpDistance frames, at a frame k such that no
   * simulated step up to k ran into terrain horizontally.
   */
  lemma ReachesIffFlightLands(b: Body, obs: seq<Rect>, px: real -> int)
    requires Launched(b)
    ensures ReachesOtherSide(px, b.x, b.y, b.direction, obs) <==>
      exists k :: 1 <= k <= JumpDistance && FirstLandingAt(b, obs, px, k)
        && ClearPathTo(px, b.x, b.y, b.direction, obs, k)
  {
    if ReachesOtherSide(px, b.x, b.y, b.direction, obs) {
      ReachMeansLanding(b, obs, px);
    } else {
      LandingMeansReach(b, obs, px);
    }
  }

  /** The lookahead's yes at step k is a first landing of the real flight at frame k on a clear path. */
  lemma ReachMeansLanding(b: Body, obs: seq<Rect>, px: real -> int)
    requires Launched(b) && ReachesOtherSide(px, b.x, b.y, b.direction, obs)
    ensures exists k ::
      1 <= k <= JumpDistance && FirstLandingAt(b, obs, px, k) && ClearPathTo(px, b.x, b.y, b.direction, obs, k)
  {
    var dir := b.direction;
    var k :| 1 <= k <= JumpDistance && ReachStep(px, b.x, b.y, dir, obs, k);
    SimulationAgreesWithFlight(b, obs, px, k);
    assert ClearPathTo(px, b.x, b.y, dir, obs, k);
  }

  /** A first landing of the real flight within JumpDistance frames on a clear path is a yes of the lookahead. */
  lemma LandingMeansReach(b: Body, obs: seq<Rect>, px: real -> int)
    requires Launched(b) && !ReachesOtherSide(px, b.x, b.y, b.direction, obs)
    ensures forall k ::
      1 <= k <= JumpDistance && FirstLandingAt(b, obs, px, k) ==> !ClearPathTo(px, b.x, b.y, b.direction, obs, k)
  {
    var dir := b.direction;
    forall k | 1 <= k <= JumpDistance && FirstLandingAt(b, obs, px, k)
      ensures !ClearPathTo(px, b.x, b.y, dir, obs, k)
    {
      SimulationAgreesWithFlight(b, obs, px, k);
      assert ClearPathTo(px, b.x, b.y, dir, obs, k) ==> ReachStep(px, b.x, b.y, dir, obs, k);
    }
  }

  /** Only the landing flag of the start carries over: the stored direction never matters to a flight. */
  lemma {:induction false} FlightIgnoresStoredDirection(b: Body, b': Body, face: int, obs: seq<Rect>, px: real -> int, n: nat)
    requires b' == b.(direction := b'.direction)
    ensures Flight(b', face, obs, px, n).onGround == Flight(b, face, obs, px, n).onGround
    ensures n >= 1 && !b.onGround ==> Flight(b', face, obs, px, n) == Flight(b, face, obs, px, n)
  {
    if b.onGround {
      FlightStaysLanded(b, face, obs, px, 0, n);
      FlightStaysLanded(b', face, obs, px, 0, n);
    } else if n == 1 {
      SameStepAnyDirection(b, b', face, obs, px);
    } else if n > 1 {
      FlightIgnoresStoredDirection(b, b', face, obs, px, n - 1);
    }
  }

  /** The flight from b with the enemy facing `face` is airborne after frame k - 1 and on the ground after frame k. */
  predicate LandsFirstFacing(b: Body, face: int, obs: seq<Rect>, px: real -> int, k: nat)
    requires k >= 1
  {
    !Flight(b, face, obs, px, k - 1).onGround && Flight(b, face, obs, px, k).onGround
  }

  /**
   * A blocked walk turns the enemy round and the lookahead then simulates a
   * jump away from the wall; but the next frame faces the player again,
   * which (the step back having restored x) is the way into the wall, so the
   * first real airborne step goes the other way from the simulated one.
   */
  lemma LookaheadAsWrittenRunsAway(b: Body, face: int, playerX: int, obs: seq<Rect>, px: real -> int)
    requires b.onGround && face == Facing(playerX, b.x)
    requires HitsAny(b.rect.(x := px(b.x + SpeedX * (face as real))), obs)
    ensures var g := GroundStep(b, face, obs, px);
      && g.direction == -face && g.x == b.x
      && Facing(playerX, g.x) == face
      && AirStep(g, Facing(playerX, g.x), obs, px).x != SimX(g.x, g.direction, 1)
  {
  }

  /**
   * For a body in the air after a jump, whatever direction it has stored, the
   * lookahead in direction `face` holds exactly when its real airborne frames,
   * facing that way, first land within JumpDistance frames on a path whose
   * horizontal steps stay clear.
   */
  lemma LookaheadMatchesFlightFacing(g: Body, face: int, obs: seq<Rect>, px: real -> int)
    requires g.speedY == JumpPower && !g.onGround && (face == 1 || face == -1)
    requires g.rect.w == EnemyWidth && g.rect.h == EnemyHeight
    ensures ReachesOtherSide(px, g.x, g.y, face, obs) <==>
      exists k :: 1 <= k <= JumpDistance && LandsFirstFacing(g, face, obs, px, k)
        && ClearPathTo(px, g.x, g.y, face, obs, k)
  {
    var launch := g.(direction := face);
    ReachesIffFlightLands(launch, obs, px);
    forall k | 1 <= k <= JumpDistance
      ensures FirstLandingAt(launch, obs, px, k) <==> LandsFirstFacing(g, face, obs, px, k)
    {
      SameFirstLanding(g, face, obs, px, k);
    }
  }

  /** The first landing of a flight facing `face` does not depend on the direction stored at the start. */
  lemma SameFirstLanding(g: Body, face: int, obs: seq<Rect>, px: real -> int, k: nat)
    requires k >= 1
    ensures FirstLandingAt(g.(direction := face), obs, px, k) <==> LandsFirstFacing(g, face, obs, px, k)
  {
    var launch := g.(direction := face);
    FlightIgnoresStoredDirection(launch, g, face, obs, px, k - 1);
    FlightIgnoresStoredDirection(launch, g, face, obs, px, k);
  }

  /**
   * A lookahead toward the wall could never answer yes: after the step back
   * its first horizontal test rectangle is the very rectangle that was just
   * blocked. This is why the lookahead runs in the direction after the turn.
   */
  lemma WallwardLookaheadNeverHolds(b: Body, face: int, obs: seq<Rect>, px: real -> int)
    requires b.rect.w == EnemyWidth && b.rect.h == EnemyHeight && b.rect.y == px(b.y)
    requires HitsAny(b.rect.(x := px(b.x + SpeedX * (face as real))), obs)
    ensures GroundStep(b, face, obs, px).x == b.x
    ensures !ReachesOtherSide(px, b.x, b.y, face, obs)
  {
    assert SimX(b.x, face, 0) == b.x;
    assert SimX(b.x, face, 1) == b.x + SpeedX * (face as real);
    assert SimY(b.y, 0) == b.y;
    assert HorizRect(px, b.x, b.y, face, 1) == b.rect.(x := px(b.x + SpeedX * (face as real)));
    BlockedMeansUnreachable(px, b.x, b.y, face, obs, 1);
  }

  /** On landing the enemy sits on top of the first terrain it overlapped and no longer overlaps it. */
  lemma LandingSnapsOnTop(b: Body, face: int, obs: seq<Rect>, px: real -> int)
    ensures var a := AirStep(b, face, obs, px);
      var moved := b.rect.(x := px(b.x + SpeedX * (face as real)), y := px(b.y + b.speedY + Gravity));
      && (a.onGround <==> HitsAny(moved, obs))
      && (a.onGround ==>
            var k := FirstHit(moved, obs);
            && a.y == (obs[k].Top() - EnemyHeight) as real && a.speedY == 0.0
            && (b.rect.h == EnemyHeight ==> a.rect.Bottom() == obs[k].Top() && !Collide(a.rect, obs[k])))
      && (!a.onGround ==> forall t :: t in obs ==> !Collide(a.rect, t))
  {
  }

  /** The one-pixel ground probe leaves the enemy's height and rect.y exactly as they were. */
  lemma ProbeLeavesHeight(b: Body, face: int, obs: seq<Rect>, px: real -> int)
    ensures GroundStep(b, face, obs, px).y == b.y
    ensures GroundStep(b, face, obs, px).rect.y == b.rect.y
    ensures GroundStep(b, face, obs, px).rect.w == b.rect.w && GroundStep(b, face, obs, px).rect.h == b.rect.h
  {
  }

  /**
   * The grounded jump rule: the enemy leaves the ground with JumpPower
   * exactly when the probe finds no ground, or it was blocked and the
   * lookahead says it can reach the other side; otherwise its vertical state
   * is untouched. Blocking reverses the facing direction.
   */
  lemma JumpRule(b: Body, face: int, obs: seq<Rect>, px: real -> int)
    requires b.onGround && (face == 1 || face == -1)
    requires b.rect.w == EnemyWidth && b.rect.h == EnemyHeight
    ensures var g := GroundStep(b, face, obs, px);
      var r1 := b.rect.(x := px(b.x + SpeedX * (face as real)));
      var blocked := HitsAny(r1, obs);
      var jump := !HitsAny(g.rect.(y := g.rect.y + 1), obs)
               || (blocked && ReachesOtherSide(px, g.x, g.y, g.direction, obs));
      && (g.direction == if blocked then -face else face)
      && (g.direction == 1 || g.direction == -1)
      && (jump ==> g.speedY == JumpPower && !g.onGround && Launched(g))
      && (!jump ==> g.speedY == b.speedY && g.onGround)
  {
  }

  class Enemy {
    var x: real
    var y: real
    var rect: Rect
    var speedY: real
    var direction: int
    var isOnGround: bool

    /** direction is +1 or -1, the rect is enemy-sized, and a grounded enemy is at rest. */
    ghost predicate Valid()
      reads this
    {
      (direction == 1 || direction == -1) && rect.w == EnemyWidth && rect.h == EnemyHeight
      && (isOnGround ==> speedY == 0.0)
    }

    /** The fields update works on, as one value. */
    function State(): (s: Body)
      reads this
    {
      Body(x, y, rect, speedY, direction, isOnGround)
    }

    /** Enemy.__init__: spawned airborne, at rest, facing right. */
    constructor (x0: real, y0: real, px: real -> int)
      ensures Valid()
      ensures x == x0 && y == y0 && rect == Rect(px(x0), px(y0), EnemyWidth, EnemyHeight)
      ensures speedY == 0.0 && direction == 1 && !isOnGround
    {
      x, y := x0, y0;
      rect := Rect(px(x0), px(y0), EnemyWidth, EnemyHeight);
      speedY := 0.0;
      direction := 1;
      isOnGround := false;
    }

    /**
     * can_reach_other_side: simulate a jump from the current position for at
     * most JumpDistance steps, on local copies only.
     */
    method CanReachOtherSide(obs: seq<Rect>, dir: int, px: real -> int) returns (r: bool)
      ensures r == ReachesOtherSide(px, x, y, dir, obs)
      ensures |obs| == 0 ==> !r
    {
      var testX := x;
      var testY := y;
      var testSpeedY := JumpPower;
      var testSpeedX := SpeedX * (dir as real);
      for i := 0 to JumpDistance
        invariant testX == SimX(x, dir, i) && testY == SimY(y, i) && testSpeedY == SimVy(i)
        invariant ClearBefore(px, x, y, dir, obs, i + 1)
      {
        testX := testX + testSpeedX;
        var testRect := Rect(px(testX), px(testY), EnemyWidth, EnemyHeight);
        assert testRect == HorizRect(px, x, y, dir, i + 1);
        var k := ScanFirst(testRect, obs);
        if k < |obs| {
          BlockedMeansUnreachable(px, x, y, dir, obs, i + 1);
          return false;
        }
        testSpeedY := testSpeedY + Gravity;
        testY := testY + testSpeedY;
        testRect := testRect.(y := px(testY));
        assert testRect == LandRect(px, x, y, dir, i + 1);
        k := ScanFirst(testRect, obs);
        if k < |obs| {
          assert ReachStep(px, x, y, dir, obs, i + 1);
          return true;
        }
        assert ClearBefore(px, x, y, dir, obs, i + 2);
      }
      NoLandingMeansUnreachable(px, x, y, dir, obs);
      return false;
    }

    /** Enemy.update: one frame, given the terrain and the player's rect.x. */
    method Update(obs: seq<Rect>, playerX: int, px: real -> int)
      requires Valid()
      modifies this
      ensures Valid()
      ensures !old(isOnGround) ==> State() == AirStep(old(State()), Facing(playerX, old(x)), obs, px)
      ensures old(isOnGround) ==> State() == GroundStep(old(State()), Facing(playerX, old(x)), obs, px)
    {
      ghost var before := State();
      if playerX as real > x {
        direction := 1;
      } else {
        direction := -1;
      }
      ghost var face := Facing(playerX, before.x);
      assert direction == face;
      ghost var faced := State();
      if !isOnGround {
        Fall(obs, px);
        SameStepAnyDirection(before, faced, face, obs, px);
      } else {
        Walk(obs, px);
        SameStepAnyDirection(before, faced, face, obs, px);
      }
    }

    /** The airborne branch of update, after the facing step. */
    method Fall(obs: seq<Rect>, px: real -> int)
      requires Valid() && !isOnGround
      modifies this
      ensures Valid()
      ensures State() == AirStep(old(State()), old(direction), obs, px)
    {
      ghost var before := State();
      x := x + SpeedX * (direction as real);
      rect := rect.(x := px(x));
      speedY := speedY + Gravity;
      y := y + speedY;
      rect := rect.(y := px(y));
      assert rect == before.rect.(x := px(x), y := px(before.y + before.speedY + Gravity));
      var k := ScanFirst(rect, obs);
      if k < |obs| {
        y := (obs[k].Top() - EnemyHeight) as real;
        rect := rect.(y := obs[k].Top() - EnemyHeight);
        speedY := 0.0;
        isOnGround := true;
      }
    }

    /** The grounded branch of update, after the facing step. */
    method Walk(obs: seq<Rect>, px: real -> int)
      requires Valid() && isOnGround
      modifies this
      ensures Valid()
      ensures State() == GroundStep(old(State()), old(direction), obs, px)
    {
      var isBlocked := WalkOrTurn(obs, px);
      var onGroundNow := ProbeGround(obs);
      var reach := false;
      if onGroundNow && isBlocked {
        reach := CanReachOtherSide(obs, direction, px);
      }
      if !onGroundNow || (isBlocked && reach) {
        speedY := JumpPower;
        isOnGround := false;
      }
    }

    /** The walking step: move one step, and on hitting a terrain turn round and step back. */
    method WalkOrTurn(obs: seq<Rect>, px: real -> int) returns (isBlocked: bool)
      requires Valid()
      modifies this`x, this`rect, this`direction
      ensures Valid()
      ensures var x1 := old(x) + SpeedX * (old(direction) as real);
        && isBlocked == HitsAny(old(rect).(x := px(x1)), obs)
        && direction == (if isBlocked then -old(direction) else old(direction))
        && x == (if isBlocked then x1 + SpeedX * (direction as real) else x1)
        && rect == old(rect).(x := px(x))
    {
      x := x + SpeedX * (direction as real);
      rect := rect.(x := px(x));
      isBlocked := false;
      var k := ScanFirst(rect, obs);
      if k < |obs| {
        direction := -direction;
        x := x + SpeedX * (direction as real);
        rect := rect.(x := px(x));
        isBlocked := true;
      }
    }

    /** The ground probe: look for terrain one pixel below, then put rect.y back. */
    method ProbeGround(obs: seq<Rect>) returns (onGroundNow: bool)
      modifies this`rect
      ensures onGroundNow == HitsAny(old(rect).(y := old(rect).y + 1), obs)
      ensures rect == old(rect)
    {
      onGroundNow := false;
      rect := rect.(y := rect.y + 1);
      var k := ScanFirst(rect, obs);
      if k < |obs| {
        onGroundNow := true;
      }
      rect := rect.(y := rect.y - 1);
    }

    /** is_out_of_screen: below the bottom of the window. */
    method IsOutOfScreen() returns (r: bool)
      ensures r <==> y > Settings.Height as real
    {
      r := y > Settings.Height as real;
    }
  }
}
