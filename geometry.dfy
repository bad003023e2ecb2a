/** The coordinate mapper: a fixed affine transform from the detector's
    normalised image space to the scene space of the renderer. */
module Geometry {

  /** A detector-space landmark: x and y are normalised to the video frame
      (y grows downward), z is a relative depth. */
  datatype Landmark = Landmark(x: real, y: real, z: real)

  /** A scene-space point (y grows upward). */
  datatype Vec3 = Vec3(x: real, y: real, z: real)

  const ScaleX: real := 10.0
  const ScaleY: real := 8.0
  const ScaleZ: real := 5.0

  function MapX(x: real): real { (x - 0.5) * ScaleX }
  function MapY(y: real): real { -(y - 0.5) * ScaleY }
  function MapZ(z: real): real { z * ScaleZ }

  /** The mapped position of one landmark. */
  function Map(l: Landmark): Vec3 {
    Vec3(MapX(l.x), MapY(l.y), MapZ(l.z))
  }

  /** The inverse transform, from scene space back to detector space. */
  function Unmap(p: Vec3): (l: Landmark)
    ensures Map(l) == p
  {
    Landmark(p.x / ScaleX + 0.5, 0.5 - p.y / ScaleY, p.z / ScaleZ)
  }

  /** Each axis is scaled by its own factor; the y axis is flipped. */
  lemma MapIsAffine(x1: real, x2: real)
    ensures MapX(x1) - MapX(x2) == 10.0 * (x1 - x2)
    ensures MapY(x1) - MapY(x2) == -8.0 * (x1 - x2)
    ensures MapZ(x1) - MapZ(x2) == 5.0 * (x1 - x2)
  {
  }

  /** The centre of the frame lands on the scene's z axis. */
  lemma MapCentre(z: real)
    ensures Map(Landmark(0.5, 0.5, z)) == Vec3(0.0, 0.0, 5.0 * z)
  {
  }

  /** The top-left corner of the frame lands at (-5, 4, 0). */
  lemma MapTopLeft()
    ensures Map(Landmark(0.0, 0.0, 0.0)) == Vec3(-5.0, 4.0, 0.0)
  {
  }

  /** Higher on the screen (smaller detector y) is higher in the scene. */
  lemma MapYStrictlyDecreasing(y1: real, y2: real)
    ensures y1 < y2 <==> MapY(y1) > MapY(y2)
  {
  }

  /** x and z keep their order. */
  lemma MapXZStrictlyIncreasing(a: real, b: real)
    ensures a < b <==> MapX(a) < MapX(b)
    ensures a < b <==> MapZ(a) < MapZ(b)
  {
  }

  /** The map loses nothing: distinct landmarks land on distinct points. */
  lemma MapInjective(l1: Landmark, l2: Landmark)
    ensures Map(l1) == Map(l2) <==> l1 == l2
  {
    if Map(l1) == Map(l2) {
      assert Unmap(Map(l1)) == l1;
      assert Unmap(Map(l2)) == l2;
    }
  }

  /** Unmap undoes Map. */
  lemma UnmapMap(l: Landmark)
    ensures Unmap(Map(l)) == l
  {
  }
}
