/** The 3D world view's rules (src/components/game/GameWorld3D.tsx): its
    keyboard controls, which issue the same commands as the 2D view, and the
    follow camera's conversion from world coordinates to scene coordinates. */
module GameWorld3D {
  import opened Types
  import GameWorld

  /** KeyboardControls: the same two range sweeps as the 2D view, over the
      same snapshot of the state. */
  method KeyboardControls(code: string, s: GameState) returns (cmds: seq<GameWorld.Command>)
    ensures cmds == GameWorld.KeyCommands(code, s)
  {
    cmds := GameWorld.HandleKeyDown(code, s);
  }

  /** A point of the three.js scene; y is up, the world's plane is x/z. */
  datatype Vec3 = Vec3(x: real, y: real, z: real)

  const CameraHeight: real := 15.0
  const CameraBack: real := 15.0

  /** The point of the ground the camera looks at: the world's centre
      becomes the scene's origin, and world y becomes scene z. */
  function GroundPoint(p: Position, worldSize: real): (r: Vec3)
    ensures r.y == 0.0
    ensures r.x + worldSize / 2.0 == p.x && r.z + worldSize / 2.0 == p.y
  {
    Vec3(p.x - worldSize / 2.0, 0.0, p.y - worldSize / 2.0)
  }

  /** Back from scene coordinates to the world's plane. */
  function WorldPoint(v: Vec3, worldSize: real): (p: Position)
  {
    Position(v.x + worldSize / 2.0, v.z + worldSize / 2.0)
  }

  /** The camera's target position: 15 above and 15 behind the ground point
      of the player, so that moving 15 forward from the point below the
      camera leads back to the player's world position. */
  function CameraTarget(p: Position, worldSize: real): (r: Vec3)
    ensures r.y == CameraHeight
    ensures WorldPoint(Vec3(r.x, 0.0, r.z - CameraBack), worldSize) == p
  {
    var g := GroundPoint(p, worldSize);
    Vec3(g.x, CameraHeight, g.z + CameraBack)
  }

  /** The camera follows the player rigidly: a move by (dx, dy) in the world
      moves the camera target by (dx, 0, dy), and the target always sits at
      the same offset (0, 15, 15) from the ground point it looks at. */
  lemma CameraFollows(p: Position, q: Position, worldSize: real)
    ensures var a := CameraTarget(p, worldSize); var b := CameraTarget(q, worldSize);
      b.x - a.x == q.x - p.x && b.y == a.y && b.z - a.z == q.y - p.y
    ensures var a := CameraTarget(p, worldSize); var g := GroundPoint(p, worldSize);
      a.x - g.x == 0.0 && a.y - g.y == CameraHeight && a.z - g.z == CameraBack
  {
  }

  /** The conversion is a translation: it can be undone, it keeps every
      distance, the world's centre goes to the origin, and the world's square
      goes to the square of half its side around the origin. */
  lemma GroundPointShift(p: Position, q: Position, worldSize: real)
    requires worldSize >= 0.0
    ensures WorldPoint(GroundPoint(p, worldSize), worldSize) == p
    ensures var a := GroundPoint(p, worldSize); var b := GroundPoint(q, worldSize);
      (a.x - b.x) * (a.x - b.x) + (a.z - b.z) * (a.z - b.z) == Dist2(p, q)
    ensures GroundPoint(Position(worldSize / 2.0, worldSize / 2.0), worldSize) == Vec3(0.0, 0.0, 0.0)
    ensures 0.0 <= p.x <= worldSize && 0.0 <= p.y <= worldSize ==>
      var a := GroundPoint(p, worldSize);
      -worldSize / 2.0 <= a.x <= worldSize / 2.0 && -worldSize / 2.0 <= a.z <= worldSize / 2.0
  {
  }
}
