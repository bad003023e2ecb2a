/** The static index tables: the hand skeleton's connections and the face
    regions drawn as coloured sub-clouds. The region tables are built the
    way the source builds them, from key ranges that are shifted and then
    filtered. */
module Tables {
  import opened Buffers

  /** Landmarks per detected hand. */
  const HandLandmarkCount: nat := 21
  /** Landmarks the face cloud's buffer is sized for. */
  const FaceLandmarkCount: nat := 468

  /** Thumb, index, middle, ring and pinky chains, each leaving the wrist (0). */
  const Connections: seq<Connection> := [
    Connection(0, 1), Connection(1, 2), Connection(2, 3), Connection(3, 4),
    Connection(0, 5), Connection(5, 6), Connection(6, 7), Connection(7, 8),
    Connection(0, 9), Connection(9, 10), Connection(10, 11), Connection(11, 12),
    Connection(0, 13), Connection(13, 14), Connection(14, 15), Connection(15, 16),
    Connection(0, 17), Connection(17, 18), Connection(18, 19), Connection(19, 20)
  ]

  /** 0, 1, ..., n - 1 shifted by base: a mapped range of keys. */
  function Shifted(n: nat, base: nat): seq<nat> {
    seq(n, i => base + i)
  }

  /** The elements of s that are at most bound, in order. */
  function AtMost(s: seq<nat>, bound: nat): (r: seq<nat>)
    ensures |r| <= |s|
    ensures forall i | 0 <= i < |r| :: r[i] <= bound
    decreases |s|
  {
    if s == [] then []
    else
      var k := |s| - 1;
      AtMost(s[..k], bound) + (if s[k] <= bound then [s[k]] else [])
  }

  const EyeIndices: seq<nat> := AtMost(Shifted(101, 33), 133) + AtMost(Shifted(102, 362), 463)
  const MouthIndices: seq<nat> := AtMost(Shifted(231, 61), 291)
  const NoseIndices: seq<nat> := [1, 2, 3, 4, 5, 6, 195, 196, 197, 7, 8, 9, 10]
  const BrowIndices: seq<nat> := AtMost(Shifted(36, 70), 105) + AtMost(Shifted(30, 336), 365)
  const EarIndices: seq<nat> := [127, 234, 454, 447]

  predicate AllBelow(s: seq<nat>, n: nat) {
    forall i | 0 <= i < |s| :: s[i] < n
  }

  /** A filter whose bound no element exceeds removes nothing. */
  lemma {:induction false} AtMostKeepsAll(s: seq<nat>, bound: nat)
    requires forall i | 0 <= i < |s| :: s[i] <= bound
    ensures AtMost(s, bound) == s
    decreases |s|
  {
    if s != [] {
      var k := |s| - 1;
      AtMostKeepsAll(s[..k], bound);
      assert s[..k] + [s[k]] == s;
    }
  }

  /** Each connection either leaves the wrist (every fourth one) or goes
      one joint further along its finger; every endpoint is a hand
      landmark, so the skeleton writer never reads past the hand list. */
  lemma ConnectionsShape()
    ensures |Connections| == 20
    ensures forall i | 0 <= i < 20 ::
      Connections[i] == Connection(if i % 4 == 0 then 0 else i, i + 1)
    ensures ConnectionsWithin(Connections, HandLandmarkCount)
  {
  }

  /** The eye table is 33..133 followed by 362..463: the filters remove
      nothing. */
  lemma EyeIndicesShape()
    ensures EyeIndices == Shifted(101, 33) + Shifted(102, 362)
    ensures |EyeIndices| == 203
    ensures forall i | 0 <= i < 203 :: EyeIndices[i] == if i < 101 then 33 + i else 261 + i
    ensures AllBelow(EyeIndices, FaceLandmarkCount)
  {
    AtMostKeepsAll(Shifted(101, 33), 133);
    AtMostKeepsAll(Shifted(102, 362), 463);
  }

  /** The mouth table is 61..291. */
  lemma MouthIndicesShape()
    ensures MouthIndices == Shifted(231, 61)
    ensures |MouthIndices| == 231
    ensures forall i | 0 <= i < 231 :: MouthIndices[i] == 61 + i
    ensures AllBelow(MouthIndices, FaceLandmarkCount)
  {
    AtMostKeepsAll(Shifted(231, 61), 291);
  }

  /** The brow table is 70..105 followed by 336..365. */
  lemma BrowIndicesShape()
    ensures BrowIndices == Shifted(36, 70) + Shifted(30, 336)
    ensures |BrowIndices| == 66
    ensures forall i | 0 <= i < 66 :: BrowIndices[i] == if i < 36 then 70 + i else 300 + i
    ensures AllBelow(BrowIndices, FaceLandmarkCount)
  {
    AtMostKeepsAll(Shifted(36, 70), 105);
    AtMostKeepsAll(Shifted(30, 336), 365);
  }

  /** The nose table has 13 distinct face landmarks, the ear table 4. */
  lemma NoseAndEarIndicesShape()
    ensures |NoseIndices| == 13
    ensures forall i, j | 0 <= i < j < 13 :: NoseIndices[i] != NoseIndices[j]
    ensures AllBelow(NoseIndices, FaceLandmarkCount)
    ensures |EarIndices| == 4
    ensures forall i, j | 0 <= i < j < 4 :: EarIndices[i] != EarIndices[j]
    ensures AllBelow(EarIndices, FaceLandmarkCount)
  {
  }
}
