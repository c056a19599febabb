// The engine values the game scripts read and write: vectors, rotations
// and the state of a 2D rigid body. Physics integration itself belongs to
// the engine and is not modelled.

module Physics {

  datatype Vec2 = Vec2(x: real, y: real)

  datatype Vec3 = Vec3(x: real, y: real, z: real)

  datatype Quat = Quat(x: real, y: real, z: real, w: real)

  const Zero2: Vec2 := Vec2(0.0, 0.0)

  datatype BodyType = Dynamic | Kinematic | Static

  /** The rigid-body properties the scripts touch. */
  datatype Body = Body(
    bodyType: BodyType,
    gravityScale: real,
    linearVelocity: Vec2,
    angularVelocity: real,
    linearDamping: real,
    angularDamping: real)

  datatype Option<T> = None | Some(value: T)
}
