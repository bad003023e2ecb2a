/** What the vertex-buffer writers leave in a flat position buffer, as
    functions on the buffer's contents. Each function follows its writer's
    loop: the last landmark (or connection, or index) written is the last
    one stored. */
module Buffers {
  import opened Geometry

  /** A skeleton edge between the landmarks at indices a and b. */
  datatype Connection = Connection(a: nat, b: nat)

  /** Coordinate k (0 is x, 1 is y, anything else z) of a scene point. */
  function Coord(p: Vec3, k: nat): real {
    if k == 0 then p.x else if k == 1 then p.y else p.z
  }

  /** One store into a typed array: an index past the end is discarded. */
  function Store(buf: seq<real>, j: nat, v: real): (r: seq<real>)
    ensures |r| == |buf|
  {
    if j < |buf| then buf[j := v] else buf
  }

  /** The three stores of one point at offset off. */
  function StorePoint(buf: seq<real>, off: nat, p: Vec3): (r: seq<real>)
    ensures |r| == |buf|
  {
    Store(Store(Store(buf, off, p.x), off + 1, p.y), off + 2, p.z)
  }

  /** The point's three cells hold its coordinates, every other cell keeps
      its value. */
  lemma StorePointCell(buf: seq<real>, off: nat, p: Vec3, k: nat)
    requires k < |buf|
    ensures StorePoint(buf, off, p)[k] == if off <= k < off + 3 then Coord(p, k - off) else buf[k]
  {
  }

  // ---------------------------------------------------------------------
  // Point clouds: landmark i goes to slot 3i.

  /** The buffer after the point writer has run over lms: cell j holds
      coordinate j % 3 of mapped landmark j / 3 when there is such a
      landmark, and its old value otherwise. Landmarks past the end of the
      buffer are dropped. */
  function WritePoints(buf: seq<real>, lms: seq<Landmark>): (r: seq<real>)
    ensures |r| == |buf|
  {
    seq(|buf|, j requires 0 <= j < |buf| =>
      if j / 3 < |lms| then Coord(Map(lms[j / 3]), j % 3) else buf[j])
  }

  /** The writer's loop step: storing landmark i at slot 3i after the
      first i landmarks leaves the buffer for the first i + 1. */
  lemma WritePointsStep(buf: seq<real>, lms: seq<Landmark>, i: nat)
    requires i < |lms|
    ensures WritePoints(buf, lms[..i + 1]) == StorePoint(WritePoints(buf, lms[..i]), 3 * i, Map(lms[i]))
  {
    var prev := WritePoints(buf, lms[..i]);
    forall j | 0 <= j < |buf|
      ensures WritePoints(buf, lms[..i + 1])[j] == StorePoint(prev, 3 * i, Map(lms[i]))[j]
    {
      StorePointCell(prev, 3 * i, Map(lms[i]), j);
      if 3 * i <= j < 3 * i + 3 {
        assert j / 3 == i && j % 3 == j - 3 * i;
      } else {
        assert j / 3 != i;
      }
    }
  }

  /** Before the first store the buffer is unchanged. */
  lemma WritePointsNone(buf: seq<real>, lms: seq<Landmark>)
    ensures WritePoints(buf, lms[..0]) == buf
  {
    assert forall j | 0 <= j < |buf| :: WritePoints(buf, lms[..0])[j] == buf[j];
  }

  /** Writing the same landmarks twice leaves what writing them once does. */
  lemma WritePointsIdempotent(buf: seq<real>, lms: seq<Landmark>)
    ensures WritePoints(WritePoints(buf, lms), lms) == WritePoints(buf, lms)
  {
    var once := WritePoints(buf, lms);
    forall j | 0 <= j < |buf|
      ensures WritePoints(once, lms)[j] == once[j]
    {
    }
  }

  /** When the landmarks cover the whole buffer, nothing of its old
      contents survives. */
  lemma WritePointsCovers(buf1: seq<real>, buf2: seq<real>, lms: seq<Landmark>)
    requires |buf1| == |buf2| <= 3 * |lms|
    ensures WritePoints(buf1, lms) == WritePoints(buf2, lms)
  {
    forall j | 0 <= j < |buf1|
      ensures WritePoints(buf1, lms)[j] == WritePoints(buf2, lms)[j]
    {
    }
  }

  // ---------------------------------------------------------------------
  // Line segments: connection i = (a, b) goes to slots 6i and 6i + 3.

  /** Every endpoint of every connection indexes one of n landmarks. */
  predicate ConnectionsWithin(conns: seq<Connection>, n: nat) {
    forall i | 0 <= i < |conns| :: conns[i].a < n && conns[i].b < n
  }

  /** The value a skeleton writer puts in cell k (0 <= k < 6) of the
      segment for connection c. */
  function SegmentCell(lms: seq<Landmark>, c: Connection, k: nat): real
    requires c.a < |lms| && c.b < |lms|
  {
    if k < 3 then Coord(Map(lms[c.a]), k) else Coord(Map(lms[c.b]), k - 3)
  }

  /** A prefix of connections within n landmarks is within them too. */
  lemma ConnectionsWithinPrefix(conns: seq<Connection>, n: nat, k: nat)
    requires ConnectionsWithin(conns, n) && k <= |conns|
    ensures ConnectionsWithin(conns[..k], n)
  {
  }

  /** The buffer after the skeleton writer has run over conns: cell j
      holds cell j % 6 of the segment of connection j / 6 when there is such
      a connection and both its landmarks exist, and its old value
      otherwise. */
  function WriteLines(buf: seq<real>, lms: seq<Landmark>, conns: seq<Connection>): (r: seq<real>)
    ensures |r| == |buf|
  {
    seq(|buf|, j requires 0 <= j < |buf| =>
      var i := j / 6;
      if i < |conns| && conns[i].a < |lms| && conns[i].b < |lms| then SegmentCell(lms, conns[i], j % 6)
      else buf[j])
  }

  /** The writer's loop step: storing the two endpoints of connection i at
      slots 6i and 6i + 3 after the first i connections leaves the buffer
      for the first i + 1. */
  lemma WriteLinesStep(buf: seq<real>, lms: seq<Landmark>, conns: seq<Connection>, i: nat)
    requires i < |conns| && conns[i].a < |lms| && conns[i].b < |lms|
    ensures WriteLines(buf, lms, conns[..i + 1]) ==
      StorePoint(StorePoint(WriteLines(buf, lms, conns[..i]), 6 * i, Map(lms[conns[i].a])), 6 * i + 3, Map(lms[conns[i].b]))
  {
    var prev := WriteLines(buf, lms, conns[..i]);
    var c := conns[i];
    var mid := StorePoint(prev, 6 * i, Map(lms[c.a]));
    var next := WriteLines(buf, lms, conns[..i + 1]);
    var stored := StorePoint(mid, 6 * i + 3, Map(lms[c.b]));
    forall j | 0 <= j < |buf|
      ensures next[j] == stored[j]
    {
      StorePointCell(prev, 6 * i, Map(lms[c.a]), j);
      StorePointCell(mid, 6 * i + 3, Map(lms[c.b]), j);
      if 6 * i <= j < 6 * i + 6 {
        assert j / 6 == i && j % 6 == j - 6 * i;
      } else {
        assert j / 6 != i;
      }
    }
  }

  /** Before the first segment the buffer is unchanged. */
  lemma WriteLinesNone(buf: seq<real>, lms: seq<Landmark>, conns: seq<Connection>)
    ensures WriteLines(buf, lms, conns[..0]) == buf
  {
    assert forall j | 0 <= j < |buf| :: WriteLines(buf, lms, conns[..0])[j] == buf[j];
  }

  /** Writing the same skeleton twice leaves what writing it once does. */
  lemma WriteLinesIdempotent(buf: seq<real>, lms: seq<Landmark>, conns: seq<Connection>)
    requires ConnectionsWithin(conns, |lms|)
    ensures WriteLines(WriteLines(buf, lms, conns), lms, conns) == WriteLines(buf, lms, conns)
  {
    var once := WriteLines(buf, lms, conns);
    forall j | 0 <= j < |buf|
      ensures WriteLines(once, lms, conns)[j] == once[j]
    {
    }
  }

  /** A buffer sized for exactly two points per connection is overwritten
      completely: no store is discarded and no old cell survives. */
  lemma WriteLinesCovers(buf1: seq<real>, buf2: seq<real>, lms: seq<Landmark>, conns: seq<Connection>)
    requires ConnectionsWithin(conns, |lms|)
    requires |buf1| == |buf2| == 6 * |conns|
    ensures WriteLines(buf1, lms, conns) == WriteLines(buf2, lms, conns)
  {
    forall j | 0 <= j < |buf1|
      ensures WriteLines(buf1, lms, conns)[j] == WriteLines(buf2, lms, conns)[j]
    {
    }
  }

  // ---------------------------------------------------------------------
  // Face parts: landmark indices[i] goes to slot 3i, a missing one is skipped.

  /** The buffer after the part writer has run over indices: cell j holds
      coordinate j % 3 of mapped landmark indices[j / 3] when that landmark
      exists; a cell of a missing landmark, and every cell from
      3 * |indices| on, keeps its old value. */
  function WritePart(buf: seq<real>, lms: seq<Landmark>, indices: seq<nat>): (r: seq<real>)
    ensures |r| == |buf|
  {
    seq(|buf|, j requires 0 <= j < |buf| =>
      var i := j / 3;
      if i < |indices| && indices[i] < |lms| then Coord(Map(lms[indices[i]]), j % 3) else buf[j])
  }

  /** The writer's loop step: index i stores its landmark at slot 3i when
      that landmark exists and leaves the buffer alone otherwise. */
  lemma WritePartStep(buf: seq<real>, lms: seq<Landmark>, indices: seq<nat>, i: nat)
    requires i < |indices|
    ensures WritePart(buf, lms, indices[..i + 1]) ==
      if indices[i] < |lms| then StorePoint(WritePart(buf, lms, indices[..i]), 3 * i, Map(lms[indices[i]]))
      else WritePart(buf, lms, indices[..i])
  {
    var prev := WritePart(buf, lms, indices[..i]);
    forall j | 0 <= j < |buf|
      ensures WritePart(buf, lms, indices[..i + 1])[j] ==
        if indices[i] < |lms| then StorePoint(prev, 3 * i, Map(lms[indices[i]]))[j] else prev[j]
    {
      if indices[i] < |lms| {
        StorePointCell(prev, 3 * i, Map(lms[indices[i]]), j);
      }
      if 3 * i <= j < 3 * i + 3 {
        assert j / 3 == i && j % 3 == j - 3 * i;
      } else {
        assert j / 3 != i;
      }
    }
  }

  /** Before the first index the buffer is unchanged. */
  lemma WritePartNone(buf: seq<real>, lms: seq<Landmark>, indices: seq<nat>)
    ensures WritePart(buf, lms, indices[..0]) == buf
  {
    assert forall j | 0 <= j < |buf| :: WritePart(buf, lms, indices[..0])[j] == buf[j];
  }

  /** Writing the same part twice leaves what writing it once does. */
  lemma WritePartIdempotent(buf: seq<real>, lms: seq<Landmark>, indices: seq<nat>)
    ensures WritePart(WritePart(buf, lms, indices), lms, indices) == WritePart(buf, lms, indices)
  {
    var once := WritePart(buf, lms, indices);
    forall j | 0 <= j < |buf|
      ensures WritePart(once, lms, indices)[j] == once[j]
    {
    }
  }

  /** The identity index list 0, 1, ..., n - 1. */
  function Iota(n: nat): seq<nat> {
    seq(n, i => i)
  }

  /** The point-cloud writer is the part writer over the identity index
      list: the two writers agree. */
  lemma WritePointsIsWritePart(buf: seq<real>, lms: seq<Landmark>)
    ensures WritePoints(buf, lms) == WritePart(buf, lms, Iota(|lms|))
  {
    forall j | 0 <= j < |buf|
      ensures WritePoints(buf, lms)[j] == WritePart(buf, lms, Iota(|lms|))[j]
    {
    }
  }
}
