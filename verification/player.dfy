/** The local `Player`'s kinematic step: key flags, a jump gated on
    `canJump`, gravity integrated every frame, a flat floor at height 3.5, a
    horizontal clamp to the world, and the player cube placed under the
    camera.

    The horizontal move itself is made by the pointer-lock controls relative
    to the camera's yaw; here it is an input (`Planar`), applied only when a
    movement key gives a non-zero heading, since otherwise the velocity it is
    scaled from is zero. */
module PlayerController {
  import opened Common

  const JumpSpeed: real := 12.0
  const Gravity: real := 40.0
  const FloorY: real := 3.5
  const Epsilon: real := 0.05
  /** Distance kept from each horizontal edge of the world. */
  const Margin: real := 0.5
  /** The cube is drawn this far below the camera. */
  const MeshDrop: real := 0.5
  const DefaultWorldSize: real := 100.0

  /** The unnormalized movement direction built from the keys. */
  datatype Heading = Heading(x: int, z: int)

  /** A horizontal displacement on the world's x and z axes. */
  datatype Planar = Planar(dx: real, dz: real)

  datatype Player = Player(
    enabled: bool,
    position: Vec3,
    velocityY: real,
    heading: Heading,
    moveForward: bool,
    moveBackward: bool,
    moveLeft: bool,
    moveRight: bool,
    canJump: bool,
    worldSize: real,
    meshPosition: Vec3)

  /** The constructor's state: disabled, at rest, not allowed to jump, in a
      world of size 100 unless told otherwise. */
  function Initial(cameraPosition: Vec3, worldSize: real := DefaultWorldSize): (p: Player)
    ensures !p.enabled && !p.canJump && p.velocityY == 0.0 && p.heading == Heading(0, 0)
    ensures !p.moveForward && !p.moveBackward && !p.moveLeft && !p.moveRight
    ensures p.worldSize == worldSize && p.position == cameraPosition
  {
    Player(false, cameraPosition, 0.0, Heading(0, 0), false, false, false, false, false, worldSize, Origin)
  }

  /** `enable`: only the flag changes (the pointer lock is not modelled). */
  function Enable(p: Player): (r: Player)
    ensures r.enabled
    ensures r.(enabled := p.enabled) == p
  {
    p.(enabled := true)
  }

  /** `disable`: only the flag changes, and frames then leave the player
      alone (see `Update`). */
  function Disable(p: Player): (r: Player)
    ensures !r.enabled
    ensures r.(enabled := p.enabled) == p
  {
    p.(enabled := false)
  }

  /** Enabling and then disabling a disabled player gives it back unchanged. */
  lemma EnableDisableRoundTrip(p: Player)
    requires !p.enabled
    ensures Disable(Enable(p)) == p
  {
  }

  // ---------------------------------------------------------------------------
  // Keys
  // ---------------------------------------------------------------------------

  /** The `keydown` listener of `setupEvents`: a movement key sets its flag;
      Space launches a jump only when `canJump`, and consumes it. */
  function OnKeyDown(p: Player, code: string): (r: Player)
    ensures code == "Space" ==>
              if p.canJump then r == p.(velocityY := JumpSpeed, canJump := false) else r == p
    ensures r.canJump == (p.canJump && code != "Space")
    ensures r.velocityY == (if code == "Space" && p.canJump then 12.0 else p.velocityY)
    ensures r.moveForward == (p.moveForward || code in {"ArrowUp", "KeyW"})
    ensures r.moveLeft == (p.moveLeft || code in {"ArrowLeft", "KeyA"})
    ensures r.moveBackward == (p.moveBackward || code in {"ArrowDown", "KeyS"})
    ensures r.moveRight == (p.moveRight || code in {"ArrowRight", "KeyD"})
    ensures r == p.(moveForward := r.moveForward, moveLeft := r.moveLeft,
                    moveBackward := r.moveBackward, moveRight := r.moveRight,
                    velocityY := r.velocityY, canJump := r.canJump)
  {
    if code == "ArrowUp" || code == "KeyW" then p.(moveForward := true)
    else if code == "ArrowLeft" || code == "KeyA" then p.(moveLeft := true)
    else if code == "ArrowDown" || code == "KeyS" then p.(moveBackward := true)
    else if code == "ArrowRight" || code == "KeyD" then p.(moveRight := true)
    else if code == "Space" && p.canJump then p.(velocityY := JumpSpeed, canJump := false)
    else p
  }

  /** The `keyup` listener: a movement key clears its flag. */
  function OnKeyUp(p: Player, code: string): (r: Player)
    ensures r.moveForward == (p.moveForward && code !in {"ArrowUp", "KeyW"})
    ensures r.moveLeft == (p.moveLeft && code !in {"ArrowLeft", "KeyA"})
    ensures r.moveBackward == (p.moveBackward && code !in {"ArrowDown", "KeyS"})
    ensures r.moveRight == (p.moveRight && code !in {"ArrowRight", "KeyD"})
    ensures r == p.(moveForward := r.moveForward, moveLeft := r.moveLeft,
                    moveBackward := r.moveBackward, moveRight := r.moveRight)
  {
    if code == "ArrowUp" || code == "KeyW" then p.(moveForward := false)
    else if code == "ArrowLeft" || code == "KeyA" then p.(moveLeft := false)
    else if code == "ArrowDown" || code == "KeyS" then p.(moveBackward := false)
    else if code == "ArrowRight" || code == "KeyD" then p.(moveRight := false)
    else p
  }

  // ---------------------------------------------------------------------------
  // One frame
  // ---------------------------------------------------------------------------

  /** The heading from the keys: forward is +z and backward -z, left is -x and
      right +x; opposite keys cancel. */
  function Intent(p: Player): (h: Heading)
    ensures -1 <= h.x <= 1 && -1 <= h.z <= 1
    ensures h.z == 1 <==> p.moveForward && !p.moveBackward
    ensures h.z == -1 <==> p.moveBackward && !p.moveForward
    ensures h.x == 1 <==> p.moveRight && !p.moveLeft
    ensures h.x == -1 <==> p.moveLeft && !p.moveRight
  {
    var z := (if p.moveForward then 1 else 0) - (if p.moveBackward then 1 else 0);
    var x := (if p.moveRight then 1 else 0) - (if p.moveLeft then 1 else 0);
    Heading(x, z)
  }

  /** `Math.max(0.5, Math.min(v, worldSize - 0.5))`. */
  function ClampAxis(v: real, worldSize: real): (r: real)
    ensures r >= Margin
    ensures worldSize >= 1.0 ==> r <= worldSize - Margin
    ensures Margin <= v <= worldSize - Margin ==> r == v
    ensures v < Margin ==> r == Margin
    ensures worldSize >= 1.0 && v > worldSize - Margin ==> r == worldSize - Margin
    ensures worldSize < 1.0 ==> r == Margin
  {
    var capped := if v < worldSize - Margin then v else worldSize - Margin;
    if Margin < capped then capped else Margin
  }

  /** The camera height after this frame's fall, before the floor check. */
  function FallenY(p: Player, delta: real): real
  {
    p.position.y + (p.velocityY - Gravity * delta) * delta
  }

  /** Whether this frame ends on the floor. */
  predicate Lands(p: Player, delta: real)
  {
    FallenY(p, delta) <= FloorY + Epsilon
  }

  /** One enabled frame, given whether it ends on the floor. */
  function Frame(p: Player, delta: real, step: Planar, landed: bool): Player
  {
    var heading := Intent(p);
    var vy := p.velocityY - Gravity * delta;
    var moved := if heading == Heading(0, 0) then p.position
                 else Vec3(p.position.x + step.dx, p.position.y, p.position.z + step.dz);
    var finalY := if landed then FloorY else moved.y + vy * delta;
    var x := ClampAxis(moved.x, p.worldSize);
    var z := ClampAxis(moved.z, p.worldSize);
    p.(position := Vec3(x, finalY, z),
       velocityY := if landed then 0.0 else vy,
       heading := heading,
       canJump := p.canJump || landed,
       meshPosition := Vec3(x, finalY - MeshDrop, z))
  }

  /** `update(delta)`, with `step` the horizontal displacement the controls
      apply for this frame's velocity. */
  function Update(p: Player, delta: real, step: Planar): (r: Player)
    ensures !p.enabled ==> r == p
    ensures p.enabled ==> r.heading == Intent(p)
    ensures p.enabled ==> r.position.y >= FloorY
    ensures p.enabled && Lands(p, delta) ==> r.position.y == FloorY && r.velocityY == 0.0 && r.canJump
    ensures p.enabled && !Lands(p, delta) ==>
              && r.velocityY == p.velocityY - Gravity * delta
              && r.position.y == p.position.y + r.velocityY * delta
              && r.canJump == p.canJump
    ensures p.enabled && Intent(p) == Heading(0, 0) ==>
              r.position.x == ClampAxis(p.position.x, p.worldSize) &&
              r.position.z == ClampAxis(p.position.z, p.worldSize)
    ensures p.enabled && Intent(p) != Heading(0, 0) ==>
              r.position.x == ClampAxis(p.position.x + step.dx, p.worldSize) &&
              r.position.z == ClampAxis(p.position.z + step.dz, p.worldSize)
    ensures p.enabled && p.worldSize >= 1.0 ==>
              Margin <= r.position.x <= p.worldSize - Margin && Margin <= r.position.z <= p.worldSize - Margin
    ensures p.enabled ==> r.meshPosition == Vec3(r.position.x, r.position.y - MeshDrop, r.position.z)
    ensures r.enabled == p.enabled && r.worldSize == p.worldSize
    ensures r.moveForward == p.moveForward && r.moveBackward == p.moveBackward
    ensures r.moveLeft == p.moveLeft && r.moveRight == p.moveRight
  {
    if !p.enabled then p else Frame(p, delta, step, Lands(p, delta))
  }

  /** The horizontal clamp leaves in-range coordinates alone, so applying it
      twice is applying it once. */
  lemma ClampIdempotent(v: real, worldSize: real)
    ensures ClampAxis(ClampAxis(v, worldSize), worldSize) == ClampAxis(v, worldSize)
  {
  }

  // ---------------------------------------------------------------------------
  // Event traces
  // ---------------------------------------------------------------------------

  datatype Event = KeyDown(code: string) | KeyUp(code: string) | Tick(delta: real, step: Planar) | On | Off

  function Step(p: Player, ev: Event): Player
  {
    match ev
    case KeyDown(code) => OnKeyDown(p, code)
    case KeyUp(code) => OnKeyUp(p, code)
    case Tick(delta, step) => Update(p, delta, step)
    case On => Enable(p)
    case Off => Disable(p)
  }

  /** `canJump` is set only by an enabled frame that lands on the floor, and
      cleared only by a Space press, which then launches the jump. */
  lemma CanJumpTransitions(p: Player, ev: Event)
    ensures !p.canJump && Step(p, ev).canJump ==> ev.Tick? && p.enabled && Lands(p, ev.delta)
    ensures p.canJump && !Step(p, ev).canJump ==> ev == KeyDown("Space") && Step(p, ev).velocityY == JumpSpeed
  {
  }

  /** A jump launched from the floor leaves it on the next frame, for any
      frame time between 5 ms and 100 ms. */
  lemma JumpLeavesFloor(p: Player, delta: real, step: Planar)
    requires p.enabled && p.position.y == FloorY && p.velocityY == JumpSpeed
    requires 0.005 <= delta <= 0.1
    ensures !Lands(p, delta)
    ensures Update(p, delta, step).position.y > FloorY + Epsilon
  {
    var speed := JumpSpeed - Gravity * delta;
    if delta <= 0.01 {
      MulAtLeast(speed, 11.6, delta);
    } else {
      MulAtLeast(speed, 8.0, delta);
    }
    assert FallenY(p, delta) == FloorY + speed * delta;
  }

  /** On a 240 Hz display (`delta` = 1/240) the frame after a jump from the
      floor ends 0.0493 above it, inside the landing band: it snaps back to
      the floor, stops the jump and re-arms it, so the player never gets off
      the ground. */
  lemma JumpCancelledAt240Hz(p: Player, step: Planar)
    requires p.enabled && p.position.y == FloorY && p.velocityY == JumpSpeed
    ensures Lands(p, 1.0 / 240.0)
    ensures var r := Update(p, 1.0 / 240.0, step);
            r.position.y == FloorY && r.velocityY == 0.0 && r.canJump
  {
    assert FallenY(p, 1.0 / 240.0) == FloorY + (JumpSpeed - Gravity / 240.0) / 240.0;
  }

  /** Whether this frame's vertical velocity, after gravity, is not upward. */
  predicate Descends(p: Player, delta: real)
  {
    p.velocityY - Gravity * delta <= 0.0
  }

  /** `update(delta)` with the floor snap taken only on a frame that is not
      rising. Whenever the player is falling it is exactly `Update`. */
  function UpdateLandingOnDescent(p: Player, delta: real, step: Planar): (r: Player)
    ensures Descends(p, delta) ==> r == Update(p, delta, step)
    ensures p.enabled && !Descends(p, delta) ==>
              && r.velocityY == p.velocityY - Gravity * delta
              && r.position.y == FallenY(p, delta)
              && r.canJump == p.canJump
  {
    if !p.enabled then p else Frame(p, delta, step, Lands(p, delta) && Descends(p, delta))
  }

  /** With the corrected landing rule a jump launched from the floor rises on
      the next frame for every frame time below 0.3 s (the time gravity needs
      to cancel the jump speed), however short. */
  lemma JumpAlwaysLeavesFloor(p: Player, delta: real, step: Planar)
    requires p.enabled && p.position.y == FloorY && p.velocityY == JumpSpeed
    requires 0.0 < delta < JumpSpeed / Gravity
    ensures var r := UpdateLandingOnDescent(p, delta, step);
            r.position.y > FloorY && r.velocityY > 0.0 && r.canJump == p.canJump
  {
    var speed := JumpSpeed - Gravity * delta;
    MulPositive(speed, delta);
    assert FallenY(p, delta) == FloorY + speed * delta;
  }

  lemma MulPositive(a: real, b: real)
    requires a > 0.0 && b > 0.0
    ensures a * b > 0.0
  {
  }

  lemma MulAtLeast(a: real, lower: real, b: real)
    requires a >= lower && b >= 0.0
    ensures a * b >= lower * b
  {
    assert (a - lower) * b >= 0.0;
  }
}
