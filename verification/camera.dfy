/** The keyboard half of `FreeCamera`: the six translation moves and the
    `keyPressEvent` dispatch of rippleDeformer and diffuseLighting. The two
    programs carry their own copy of the class; they differ only in the sign
    of the strafe moves. Mouse look (`updateMouse`) rotates the view
    direction and right axis with Qt matrices and is not modelled: the axes
    are simply part of the state. */
module Camera {
  import opened Vectors

  /** Which program's `FreeCamera` is meant. */
  datatype Flavour = Ripple | Diffuse

  datatype FreeCamera = FreeCamera(position: Vec3, viewDirection: Vec3, up: Vec3, rightAxis: Vec3)

  /** `FreeCamera.__init__`: up is +Y, the view looks down -Z, and the right
      axis is the zero vector `QVector3D()` until the mouse first turns the
      camera; `initializeGL` then places the camera at (0, 0, 5). */
  function Initial(): FreeCamera
  {
    FreeCamera(Vec3(0.0, 0.0, 5.0), Vec3(0.0, 0.0, -1.0), Vec3(0.0, 1.0, 0.0), Zero)
  }

  function Forward(c: FreeCamera): FreeCamera
  {
    c.(position := Add(c.position, c.viewDirection))
  }

  function Backward(c: FreeCamera): FreeCamera
  {
    c.(position := Sub(c.position, c.viewDirection))
  }

  function LiftUp(c: FreeCamera): FreeCamera
  {
    c.(position := Add(c.position, c.up))
  }

  function LiftDown(c: FreeCamera): FreeCamera
  {
    c.(position := Sub(c.position, c.up))
  }

  /** rippleDeformer adds the right axis when strafing left; diffuseLighting
      subtracts it. */
  function StrafeLeft(f: Flavour, c: FreeCamera): FreeCamera
  {
    match f
    case Ripple => c.(position := Add(c.position, c.rightAxis))
    case Diffuse => c.(position := Sub(c.position, c.rightAxis))
  }

  function StrafeRight(f: Flavour, c: FreeCamera): FreeCamera
  {
    match f
    case Ripple => c.(position := Sub(c.position, c.rightAxis))
    case Diffuse => c.(position := Add(c.position, c.rightAxis))
  }

  // Qt key codes (`Qt.Key_*`) the dispatch compares against.
  const KeyW: int := 0x57
  const KeyS: int := 0x53
  const KeyA: int := 0x41
  const KeyD: int := 0x44
  const KeyQ: int := 0x51
  const KeyZ: int := 0x5a

  const MoveKeys: set<int> := {KeyW, KeyS, KeyA, KeyD, KeyQ, KeyZ}

  /** Reference definition of the displacement each key asks for: along the
      view for W/S, across it for A/D (sign by flavour), along up for Q/Z,
      nothing for any other key. */
  function Displacement(f: Flavour, c: FreeCamera, key: int): Vec3
  {
    if key == KeyW then c.viewDirection
    else if key == KeyS then Neg(c.viewDirection)
    else if key == KeyA then (if f == Ripple then c.rightAxis else Neg(c.rightAxis))
    else if key == KeyD then (if f == Ripple then Neg(c.rightAxis) else c.rightAxis)
    else if key == KeyQ then c.up
    else if key == KeyZ then Neg(c.up)
    else Zero
  }

  /** `keyPressEvent`: the if/elif chain over W, S, A, D, Q, Z. Each key
      triggers exactly one move, which shifts the position by the key's
      displacement and leaves the axes alone; any other key changes nothing. */
  function KeyPress(f: Flavour, c: FreeCamera, key: int): (r: FreeCamera)
    ensures r.viewDirection == c.viewDirection && r.up == c.up && r.rightAxis == c.rightAxis
    ensures r.position == Add(c.position, Displacement(f, c, key))
    ensures key !in MoveKeys ==> r == c
  {
    if key == KeyW then Forward(c)
    else if key == KeyS then Backward(c)
    else if key == KeyA then StrafeLeft(f, c)
    else if key == KeyD then StrafeRight(f, c)
    else if key == KeyQ then LiftUp(c)
    else if key == KeyZ then LiftDown(c)
    else c
  }

  /** The move key that undoes `key`: W/S, A/D and Q/Z are opposites. */
  function Opposite(key: int): int
  {
    if key == KeyW then KeyS
    else if key == KeyS then KeyW
    else if key == KeyA then KeyD
    else if key == KeyD then KeyA
    else if key == KeyQ then KeyZ
    else if key == KeyZ then KeyQ
    else key
  }

  /** Under exact arithmetic, a move followed by its opposite restores the
      camera: forward/backward, strafe left/right and lift up/down cancel,
      in either order and for both flavours. */
  lemma OppositeKeysCancel(f: Flavour, c: FreeCamera, key: int)
    requires key in MoveKeys
    ensures Opposite(key) in MoveKeys && Opposite(key) != key
    ensures KeyPress(f, KeyPress(f, c, key), Opposite(key)) == c
  {
  }

  /** The two programs' strafe keys are mirror images: A in one is D in the
      other, and every other key behaves the same. */
  lemma FlavoursMirrorStrafe(c: FreeCamera, key: int)
    ensures KeyPress(Ripple, c, KeyA) == KeyPress(Diffuse, c, KeyD)
    ensures KeyPress(Ripple, c, KeyD) == KeyPress(Diffuse, c, KeyA)
    ensures key != KeyA && key != KeyD ==> KeyPress(Ripple, c, key) == KeyPress(Diffuse, c, key)
  {
  }

  /** While the right axis is zero, as it is from `__init__` until the mouse
      first turns the camera, A and D leave the camera where it is. */
  lemma StrafeIdleWithoutRightAxis(f: Flavour, c: FreeCamera)
    requires c.rightAxis == Zero
    ensures KeyPress(f, c, KeyA) == c
    ensures KeyPress(f, c, KeyD) == c
  {
    assert Add(c.position, Zero) == c.position;
    assert Sub(c.position, Zero) == c.position;
  }
}
