/** Renderable entities (a point cloud or a set of line segments backed by a
    flat position buffer) and the writers that refresh their buffers in
    place every detection frame. */
module Render {
  import opened Options
  import opened Geometry
  import opened Buffers

  /** The observable state of one entity. */
  datatype Entity = Entity(positions: seq<real>, visible: bool, color: int, needsUpdate: bool)

  /** An entity after the point writer ran over lms. */
  function PointsUpdated(e: Entity, lms: seq<Landmark>): Entity {
    e.(positions := WritePoints(e.positions, lms), needsUpdate := true)
  }

  /** An entity after the skeleton writer ran over conns. */
  function SkeletonUpdated(e: Entity, lms: seq<Landmark>, conns: seq<Connection>): Entity
    requires ConnectionsWithin(conns, |lms|)
  {
    e.(positions := WriteLines(e.positions, lms, conns), needsUpdate := true)
  }

  /** An entity after the part writer ran over indices: it is also shown. */
  function PartUpdated(e: Entity, lms: seq<Landmark>, indices: seq<nat>): Entity {
    e.(positions := WritePart(e.positions, lms, indices), needsUpdate := true, visible := true)
  }

  /** A point cloud or line-segment set. The buffer is allocated once and
      then only overwritten, so the array reference is constant. */
  class Renderable {
    const positions: array<real>
    var visible: bool
    var color: int
    var needsUpdate: bool

    /** A hidden entity with a zero-filled buffer of the given size. */
    constructor (color: int, size: nat)
      ensures positions.Length == size && fresh(positions)
      ensures View() == Entity(seq(size, _ => 0.0), false, color, false)
    {
      positions := new real[size](_ => 0.0);
      visible := false;
      this.color := color;
      needsUpdate := false;
      new;
      assert positions[..] == seq(size, _ => 0.0);
    }

    ghost function View(): Entity
      reads this, positions
    {
      Entity(positions[..], visible, color, needsUpdate)
    }
  }

  /** Store v at index j unless j is past the end of the buffer. */
  method StoreAt(a: array<real>, j: nat, v: real)
    modifies a
    ensures a[..] == Store(old(a[..]), j, v)
  {
    if j < a.Length {
      a[j] := v;
    }
  }

  /** Store the three coordinates of p at offset off. */
  method StorePointAt(a: array<real>, off: nat, p: Vec3)
    modifies a
    ensures a[..] == StorePoint(old(a[..]), off, p)
  {
    StoreAt(a, off, p.x);
    StoreAt(a, off + 1, p.y);
    StoreAt(a, off + 2, p.z);
  }

  /** Store the segment from landmark la to landmark lb at offset off. */
  method StoreSegmentAt(a: array<real>, off: nat, la: Landmark, lb: Landmark)
    modifies a
    ensures a[..] == StorePoint(StorePoint(old(a[..]), off, Map(la)), off + 3, Map(lb))
  {
    StorePointAt(a, off, Vec3(MapX(la.x), MapY(la.y), MapZ(la.z)));
    StorePointAt(a, off + 3, Vec3(MapX(lb.x), MapY(lb.y), MapZ(lb.z)));
  }

  /** The point-cloud writer, used for both hands and the face cloud:
      landmark i goes to slot 3i; stores past the buffer are discarded. */
  method UpdatePoints(lms: seq<Landmark>, points: Renderable)
    modifies points, points.positions
    ensures points.View() == PointsUpdated(old(points.View()), lms)
  {
    var a := points.positions;
    WritePointsNone(a[..], lms);
    var i := 0;
    while i < |lms|
      invariant 0 <= i <= |lms|
      invariant a[..] == WritePoints(old(a[..]), lms[..i])
      invariant points.visible == old(points.visible) && points.color == old(points.color)
    {
      StorePointAt(a, 3 * i, Vec3(MapX(lms[i].x), MapY(lms[i].y), MapZ(lms[i].z)));
      WritePointsStep(old(a[..]), lms, i);
      i := i + 1;
    }
    assert lms[..i] == lms;
    points.needsUpdate := true;
  }

  /** The skeleton writer: connection i = (a, b) puts landmark a at slot 6i
      and landmark b at slot 6i + 3. */
  method UpdateSkeleton(lms: seq<Landmark>, conns: seq<Connection>, skeleton: Renderable)
    requires ConnectionsWithin(conns, |lms|)
    modifies skeleton, skeleton.positions
    ensures skeleton.View() == SkeletonUpdated(old(skeleton.View()), lms, conns)
  {
    var buf := skeleton.positions;
    WriteLinesNone(buf[..], lms, conns);
    var i := 0;
    while i < |conns|
      invariant 0 <= i <= |conns|
      invariant ConnectionsWithin(conns[..i], |lms|)
      invariant buf[..] == WriteLines(old(buf[..]), lms, conns[..i])
      invariant skeleton.visible == old(skeleton.visible) && skeleton.color == old(skeleton.color)
    {
      ConnectionsWithinPrefix(conns, |lms|, i + 1);
      StoreSegmentAt(buf, 6 * i, lms[conns[i].a], lms[conns[i].b]);
      WriteLinesStep(old(buf[..]), lms, conns, i);
      i := i + 1;
    }
    assert conns[..i] == conns;
    skeleton.needsUpdate := true;
  }

  /** The face-skeleton writer: does nothing when there is no tessellation
      table or no skeleton entity, else writes the tessellation. */
  method UpdateFaceSkeleton(lms: seq<Landmark>, tessellation: Option<seq<Connection>>, skeleton: Renderable?)
    requires tessellation.Some? ==> ConnectionsWithin(tessellation.value, |lms|)
    modifies skeleton, if skeleton == null then {} else {skeleton.positions}
    ensures skeleton != null ==>
      skeleton.View() ==
        if tessellation.None? then old(skeleton.View())
        else SkeletonUpdated(old(skeleton.View()), lms, tessellation.value)
  {
    if tessellation.None? || skeleton == null {
      return;
    }
    UpdateSkeleton(lms, tessellation.value, skeleton);
  }

  /** The part writer: landmark indices[i] goes to slot 3i, a missing
      landmark leaves its slot alone, and the part is shown. */
  method UpdatePart(lms: seq<Landmark>, indices: seq<nat>, points: Renderable)
    modifies points, points.positions
    ensures points.View() == PartUpdated(old(points.View()), lms, indices)
  {
    var a := points.positions;
    WritePartNone(a[..], lms, indices);
    var i := 0;
    while i < |indices|
      invariant 0 <= i <= |indices|
      invariant a[..] == WritePart(old(a[..]), lms, indices[..i])
      invariant points.visible == old(points.visible) && points.color == old(points.color)
    {
      if indices[i] < |lms| {
        var lm := lms[indices[i]];
        StorePointAt(a, 3 * i, Vec3(MapX(lm.x), MapY(lm.y), MapZ(lm.z)));
      }
      WritePartStep(old(a[..]), lms, indices, i);
      i := i + 1;
    }
    assert indices[..i] == indices;
    points.needsUpdate := true;
    points.visible := true;
  }
}
