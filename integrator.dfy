// Movement integrator: the per-tick update of the player's speed from the
// held direction keys, gravity and friction, the jump, and the player state
// that the main loop keeps between ticks.
module Integrator {
  import opened Geometry
  import opened Collision

  /** PLAYER_FORCE_TO_RUN, 0.3 pixel per tick: the run step and the friction step. */
  const RunForce: int := 3
  /** GRAVITY_FORCE, 0.2 pixel per tick. */
  const Gravity: int := 2
  /** PLAYER_MAX_ACCELERATION_X, 3 pixels per tick. */
  const MaxAccX: int := 30
  /** PLAYER_MAX_ACCELERATION_Y, 5 pixels per tick. */
  const MaxAccY: int := 50
  /** The vertical speed a jump sets, -5 pixels per tick (upwards). */
  const JumpAcc: int := -50

  /** The friction term: RunForce towards zero, nothing at zero. */
  function Friction(a: int): int
  {
    if a < 0 then RunForce else if a > 0 then -RunForce else 0
  }

  /** One tick of the integrator. The run step (left before right) gives both the new
      horizontal speed and `to.x`; gravity is added while the vertical speed is at most
      MaxAccY and the result is also `to.y`; friction is applied after `to.x` was taken,
      when no direction is held or the horizontal speed exceeds MaxAccX. */
  function Step(m: Movement, left: bool, right: bool): (r: Movement)
    // Left beats right; `to.x` is the speed before friction.
    ensures left ==> r.to.x == m.acc.x - RunForce
    ensures !left && right ==> r.to.x == m.acc.x + RunForce
    ensures !left && !right ==> r.to.x == m.acc.x
    // Gravity stops once the vertical speed exceeds MaxAccY, so it never passes MaxAccY + Gravity.
    ensures r.to.y == r.acc.y
    ensures m.acc.y <= MaxAccY ==> r.acc.y == m.acc.y + Gravity
    ensures m.acc.y > MaxAccY ==> r.acc.y == m.acc.y
    ensures m.acc.y <= MaxAccY + Gravity ==> r.acc.y <= MaxAccY + Gravity
    // The horizontal speed stays within MaxAccX and on the grid of RunForce steps.
    ensures Abs(m.acc.x) <= MaxAccX ==> Abs(r.acc.x) <= MaxAccX
    ensures m.acc.x % RunForce == 0 ==> r.acc.x % RunForce == 0
    // With no key held, friction moves a grid speed one step towards zero and never past it.
    ensures !left && !right && m.acc.x % RunForce == 0 ==>
              Abs(r.acc.x) == (if m.acc.x == 0 then 0 else Abs(m.acc.x) - RunForce) &&
              (m.acc.x >= 0 ==> r.acc.x >= 0) && (m.acc.x <= 0 ==> r.acc.x <= 0)
    // A held key keeps its run step unless that takes the speed past MaxAccX; then friction
    // takes one step back, so the speed saturates at MaxAccX.
    ensures (left || right) && Abs(r.to.x) <= MaxAccX ==> r.acc.x == r.to.x
    ensures r.to.x > MaxAccX ==> r.acc.x == r.to.x - RunForce
    ensures r.to.x < -MaxAccX ==> r.acc.x == r.to.x + RunForce
    ensures left && m.acc.x % RunForce == 0 && Abs(m.acc.x) <= MaxAccX ==>
              r.acc.x == (if m.acc.x == -MaxAccX then -MaxAccX else m.acc.x - RunForce)
    ensures !left && right && m.acc.x % RunForce == 0 && Abs(m.acc.x) <= MaxAccX ==>
              r.acc.x == (if m.acc.x == MaxAccX then MaxAccX else m.acc.x + RunForce)
  {
    var ax := if left then m.acc.x - RunForce else if right then m.acc.x + RunForce else m.acc.x;
    var ay := m.acc.y + (if m.acc.y > MaxAccY then 0 else Gravity);
    var fx := if (!left && !right) || Abs(ax) > MaxAccX then ax + Friction(ax) else ax;
    Movement(Vec(ax, ay), Vec(fx, ay))
  }

  /** `n` ticks with no direction key held. */
  function IdleTicks(m: Movement, n: nat): Movement
    decreases n
  {
    if n == 0 then m else IdleTicks(Step(m, false, false), n - 1)
  }

  /** Friction never overshoots: from a speed on the RunForce grid, each idle tick takes
      exactly one step towards zero until it is zero, and it stays zero. */
  lemma {:induction false} FrictionDecays(m: Movement, n: nat)
    requires m.acc.x % RunForce == 0
    ensures var a := IdleTicks(m, n).acc.x;
            (m.acc.x >= 0 ==> a == if m.acc.x >= RunForce * n then m.acc.x - RunForce * n else 0) &&
            (m.acc.x <= 0 ==> a == if -m.acc.x >= RunForce * n then m.acc.x + RunForce * n else 0)
    decreases n
  {
    if n > 0 {
      var m1 := Step(m, false, false);
      FrictionDecays(m1, n - 1);
    }
  }

  /** From a horizontal speed of 3 pixels per tick with no input, the speed is exactly
      zero after ten ticks, not negative. */
  lemma TenIdleTicksStop(m: Movement)
    requires m.acc.x == MaxAccX
    ensures IdleTicks(m, 10).acc.x == 0
  {
    FrictionDecays(m, 10);
  }

  /** The player's state kept by the main loop: player_rect, player_movement and
      player_flip (facing left). */
  class Player {
    var rect: Rect
    var movement: Movement
    var facingLeft: bool

    /** What every tick preserves: the fixed 15 x 35 pixel size, and reachable speeds. */
    ghost predicate Valid()
      reads this
    {
      rect.w == 150 && rect.h == 350 &&
      movement.acc.x % RunForce == 0 && Abs(movement.acc.x) <= MaxAccX &&
      movement.acc.y <= MaxAccY + Gravity
    }

    /** The start state: at (100, 30) pixels, at rest, facing right. */
    constructor ()
      ensures Valid()
      ensures rect == Rect(1000, 300, 150, 350)
      ensures movement == Movement(Vec(0, 0), Vec(0, 0)) && !facingLeft
    {
      rect := Rect(1000, 300, 150, 350);
      movement := Movement(Vec(0, 0), Vec(0, 0));
      facingLeft := false;
    }

    /** The space key: the vertical speed becomes JumpAcc, whatever it was. */
    method Jump()
      requires Valid()
      modifies this`movement
      ensures Valid()
      ensures movement == old(movement).(acc := old(movement).acc.(y := JumpAcc))
    {
      movement := movement.(acc := movement.acc.(y := JumpAcc));
    }

    /** The integrator's compound assignments for one tick. */
    method Integrate(left: bool, right: bool)
      requires Valid()
      modifies this`movement, this`facingLeft
      ensures Valid()
      ensures movement == Step(old(movement), left, right)
      // Facing: left beats right; with neither held the player keeps facing the same way.
      ensures facingLeft == (left || (!right && old(facingLeft)))
      ensures Abs(movement.to.x) <= MaxAccX + RunForce
    {
      var ax := movement.acc.x;
      if left {
        ax := ax - RunForce;
      } else if right {
        ax := ax + RunForce;
      }
      var toX := ax;
      var ay := movement.acc.y;
      ay := ay + (if ay > MaxAccY then 0 else Gravity);
      movement := Movement(Vec(toX, ay), Vec(ax, ay));
      if left {
        facingLeft := true;
      } else if right {
        facingLeft := false;
      }
      if (!left && !right) || Abs(movement.acc.x) > MaxAccX {
        movement := movement.(acc := movement.acc.(x := movement.acc.x + Friction(movement.acc.x)));
      }
    }

    /** move_rect_on_world applied to the player against the world's tiles. */
    method MoveOnWorld(tiles: seq<Tile>)
      requires Valid()
      modifies this`rect, this`movement
      ensures Valid()
      ensures Resolved(old(rect), old(movement), tiles, rect, movement)
    {
      rect, movement := MoveRectOnWorld(rect, movement, tiles);
    }

    /** One frame of the main loop for the player: the jump key from the event loop, then
        the integrator, then the collision resolver against the world's tiles. */
    method Tick(jump: bool, left: bool, right: bool, tiles: seq<Tile>)
      requires Valid()
      modifies this`rect, this`movement, this`facingLeft
      ensures Valid()
      ensures var m := if jump then old(movement).(acc := old(movement).acc.(y := JumpAcc)) else old(movement);
              Resolved(old(rect), Step(m, left, right), tiles, rect, movement)
      ensures facingLeft == (left || (!right && old(facingLeft)))
    {
      if jump {
        Jump();
      }
      Integrate(left, right);
      MoveOnWorld(tiles);
    }
  }
}
