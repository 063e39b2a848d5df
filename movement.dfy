/** The `move_player` system: the four movement keys give a direction whose
    components are small integers, the direction picks the sprite's animation
    frame, and the player's translation moves along the normalised direction
    at PlayerSpeed units per second. */
module Movement {

  /** The pressed state of the movement keys W, S, A and D in one frame. */
  datatype Keys = Keys(w: bool, s: bool, a: bool, d: bool)

  /** The `direction` vector of `move_player` before normalisation. */
  datatype Direction = Direction(x: int, y: int, z: int)

  const Zero: Direction := Direction(0, 0, 0)

  /** A translation in world units; the model uses exact reals. */
  datatype Vec3 = Vec3(x: real, y: real, z: real)

  const PlayerSpeed: real := 100.0

  /** Depth of the tile layer: the z passed to `get_tilemap_center_transform`
      (src/main.rs:85). The tilemap bundle and its transform are not part of
      this model; the constant only states that the player is drawn above
      that layer. */
  const TileLayerZ: real := 0.0

  function Signal(pressed: bool): int {
    if pressed then 1 else 0
  }

  /** Reference definition of the direction: up minus down on y, right minus
      left on x. Each axis is 0 exactly when both or neither of its keys are
      held, and no key at all gives the zero vector. */
  function DirectionOf(keys: Keys): (dir: Direction)
    ensures dir.x in {-1, 0, 1} && dir.y in {-1, 0, 1} && dir.z == 0
    ensures dir.y == 0 <==> keys.w == keys.s
    ensures dir.x == 0 <==> keys.a == keys.d
    ensures dir.y == 1 <==> keys.w && !keys.s
    ensures dir.x == 1 <==> keys.d && !keys.a
    ensures dir == Zero <==> keys.w == keys.s && keys.a == keys.d
  {
    Direction(Signal(keys.d) - Signal(keys.a), Signal(keys.w) - Signal(keys.s), 0)
  }

  /** The four `if keys.pressed(..)` steps of `move_player`, each adding or
      subtracting one on its axis of a vector that starts at zero. */
  method AccumulateDirection(keys: Keys) returns (direction: Direction)
    ensures direction == DirectionOf(keys)
  {
    direction := Direction(0, 0, 0);
    if keys.w {
      direction := direction.(y := direction.y + 1);
    }
    if keys.s {
      direction := direction.(y := direction.y - 1);
    }
    if keys.a {
      direction := direction.(x := direction.x - 1);
    }
    if keys.d {
      direction := direction.(x := direction.x + 1);
    }
  }

  /** The sprite-sheet cell: 1 (moving up) when the direction points up, 0
      (idle) otherwise. */
  function AnimationIndex(direction: Direction): nat {
    if direction.y > 0 then 1 else 0
  }

  /** The animation frame picked for a frame's keys: 1 exactly when W is held
      and S is not. It depends on nothing but the keys. */
  function FrameIndex(keys: Keys): (index: nat)
    ensures index in {0, 1}
    ensures index == 1 <==> keys.w && !keys.s
  {
    AnimationIndex(DirectionOf(keys))
  }

  function SquaredLength(direction: Direction): nat {
    direction.x * direction.x + direction.y * direction.y + direction.z * direction.z
  }

  function Norm2(v: Vec3): real {
    v.x * v.x + v.y * v.y + v.z * v.z
  }

  function Add(a: Vec3, b: Vec3): Vec3 {
    Vec3(a.x + b.x, a.y + b.y, a.z + b.z)
  }

  function Scale(v: Vec3, c: real): Vec3 {
    Vec3(v.x * c, v.y * c, v.z * c)
  }

  /** `inv` is the reciprocal of the length of a nonzero `direction`. The
      model takes the square root from its caller in this form. */
  predicate IsInverseLength(direction: Direction, inv: real) {
    direction == Zero || (inv > 0.0 && inv * inv * (SquaredLength(direction) as real) == 1.0)
  }

  /** `normalize_or_zero`: the zero vector stays zero, any other direction
      becomes a unit vector parallel to it, pointing the same way on each
      axis. */
  function NormalizeOrZero(direction: Direction, inv: real): (n: Vec3)
    requires IsInverseLength(direction, inv)
    ensures direction == Zero ==> n == Vec3(0.0, 0.0, 0.0)
    ensures direction != Zero ==> Norm2(n) == 1.0
    ensures n.x * (direction.y as real) == n.y * (direction.x as real)
    ensures n.x * (direction.z as real) == n.z * (direction.x as real)
    ensures n.y * (direction.z as real) == n.z * (direction.y as real)
    ensures (n.x > 0.0 <==> direction.x > 0) && (n.x < 0.0 <==> direction.x < 0)
    ensures (n.y > 0.0 <==> direction.y > 0) && (n.y < 0.0 <==> direction.y < 0)
    ensures (n.z > 0.0 <==> direction.z > 0) && (n.z < 0.0 <==> direction.z < 0)
  {
    if direction == Zero then Vec3(0.0, 0.0, 0.0)
    else
      var n := Vec3(direction.x as real * inv, direction.y as real * inv, direction.z as real * inv);
      assert Norm2(n) == inv * inv * (SquaredLength(direction) as real);
      n
  }

  /** How far the player moves in a frame of `dt` seconds. */
  function Step(direction: Direction, inv: real, dt: real): Vec3
    requires IsInverseLength(direction, inv)
  {
    Scale(NormalizeOrZero(direction, inv), PlayerSpeed * dt)
  }

  /** A step along a nonzero direction is PlayerSpeed * dt long. */
  lemma StepLength(direction: Direction, inv: real, dt: real)
    requires IsInverseLength(direction, inv) && direction != Zero
    ensures Norm2(Step(direction, inv, dt)) == (PlayerSpeed * dt) * (PlayerSpeed * dt)
  {
  }

  /** Moving for dt1 and then for dt2 with the same keys ends where one move
      for dt1 + dt2 ends. */
  lemma StepsCompose(start: Vec3, direction: Direction, inv: real, dt1: real, dt2: real)
    requires IsInverseLength(direction, inv)
    ensures Add(Add(start, Step(direction, inv, dt1)), Step(direction, inv, dt2))
         == Add(start, Step(direction, inv, dt1 + dt2))
  {
  }

  /** The player entity's `Transform` translation and `TextureAtlas` index. */
  class Player {
    var index: nat
    var translation: Vec3

    /** The player spawned by `startup`: idle frame, at the origin, one unit
        above the tile layer. */
    constructor Spawn()
      ensures index == 0 && translation == Vec3(0.0, 0.0, 1.0)
      ensures translation.z > TileLayerZ
    {
      index := 0;
      translation := Vec3(0.0, 0.0, 1.0);
    }

    /** One run of `move_player` for a frame of `dt` seconds in which `keys`
        are held; `inv` is the reciprocal length of that frame's direction. */
    method Move(keys: Keys, dt: real, inv: real)
      requires IsInverseLength(DirectionOf(keys), inv)
      modifies this
      ensures index == FrameIndex(keys)
      ensures translation == Add(old(translation), Step(DirectionOf(keys), inv, dt))
      ensures translation.z == old(translation.z)
      ensures DirectionOf(keys) == Zero ==> translation == old(translation)
    {
      var direction := AccumulateDirection(keys);
      index := AnimationIndex(direction);
      translation := Add(translation, Scale(NormalizeOrZero(direction, inv), PlayerSpeed * dt));
    }
  }
}
