/** The gesture classifier: counts the fingers whose tip is above their
    proximal (PIP) joint and names the hand pose after the count. */
module Gesture {
  import opened Geometry

  datatype Gesture = Open | Fist | Other

  /** A finger as a (tip, PIP joint) pair of hand landmark indices. */
  datatype Finger = Finger(tip: nat, pip: nat)

  /** Index, middle, ring and pinky fingers. */
  const Fingers: seq<Finger> := [Finger(8, 6), Finger(12, 10), Finger(16, 14), Finger(20, 18)]

  /** A finger is extended when both landmarks are present and the tip is
      higher in the frame (smaller detector y) than the joint. */
  predicate Extended(lms: seq<Landmark>, f: Finger) {
    f.tip < |lms| && f.pip < |lms| && lms[f.tip].y < lms[f.pip].y
  }

  /** How many of the first n fingers are extended. */
  function CountExtended(lms: seq<Landmark>, n: nat): (count: nat)
    requires n <= |Fingers|
    ensures count <= n
  {
    if n == 0 then 0
    else CountExtended(lms, n - 1) + (if Extended(lms, Fingers[n - 1]) then 1 else 0)
  }

  function Classify(lms: seq<Landmark>): Gesture {
    var extended := CountExtended(lms, |Fingers|);
    if extended >= 4 then Open else if extended == 0 then Fist else Other
  }

  /** The classifier's counting loop. */
  method DetectGesture(lms: seq<Landmark>) returns (g: Gesture)
    ensures g == Classify(lms)
  {
    var extended := 0;
    var i := 0;
    while i < |Fingers|
      invariant 0 <= i <= |Fingers|
      invariant extended == CountExtended(lms, i)
    {
      var tip, pip := Fingers[i].tip, Fingers[i].pip;
      if tip < |lms| && pip < |lms| && lms[tip].y < lms[pip].y {
        extended := extended + 1;
      }
      i := i + 1;
    }
    if extended >= 4 {
      g := Open;
    } else if extended == 0 {
      g := Fist;
    } else {
      g := Other;
    }
  }

  /** The count of the first n fingers reaches n exactly when each of them
      is extended, and is zero exactly when none is. */
  lemma {:induction false} CountExtendedExtremes(lms: seq<Landmark>, n: nat)
    requires n <= |Fingers|
    ensures CountExtended(lms, n) == n <==> forall i | 0 <= i < n :: Extended(lms, Fingers[i])
    ensures CountExtended(lms, n) == 0 <==> forall i | 0 <= i < n :: !Extended(lms, Fingers[i])
  {
    if n > 0 {
      CountExtendedExtremes(lms, n - 1);
    }
  }

  /** "open" exactly when all four fingers are extended. */
  lemma ClassifyOpen(lms: seq<Landmark>)
    ensures Classify(lms) == Open <==> forall i | 0 <= i < 4 :: Extended(lms, Fingers[i])
  {
    CountExtendedExtremes(lms, |Fingers|);
  }

  /** "fist" exactly when no finger is extended. */
  lemma ClassifyFist(lms: seq<Landmark>)
    ensures Classify(lms) == Fist <==> forall i | 0 <= i < 4 :: !Extended(lms, Fingers[i])
  {
    CountExtendedExtremes(lms, |Fingers|);
  }

  /** "other" exactly when some but not all fingers are extended. */
  lemma ClassifyOther(lms: seq<Landmark>)
    ensures Classify(lms) == Other <==>
      (exists i | 0 <= i < 4 :: Extended(lms, Fingers[i])) &&
      (exists i | 0 <= i < 4 :: !Extended(lms, Fingers[i]))
  {
    CountExtendedExtremes(lms, |Fingers|);
  }

  /** A hand list too short to hold any fingertip (index 8 and up) is a
      fist: a missing landmark counts as not extended. */
  lemma ShortHandIsFist(lms: seq<Landmark>)
    requires |lms| <= 8
    ensures Classify(lms) == Fist
  {
    ClassifyFist(lms);
  }

  /** A hand whose four fingertips sit at y = 0.1 and whose four PIP joints
      sit at y = 0.5 is open. */
  lemma OpenHandExample(lms: seq<Landmark>)
    requires |lms| == 21
    requires forall i | 0 <= i < 4 :: lms[Fingers[i].tip].y == 0.1 && lms[Fingers[i].pip].y == 0.5
    ensures Classify(lms) == Open
  {
    ClassifyOpen(lms);
  }

  /** Only the index finger extended is "other". */
  lemma IndexOnlyIsOther(lms: seq<Landmark>)
    requires |lms| == 21
    requires lms[8].y < lms[6].y
    requires lms[12].y >= lms[10].y && lms[16].y >= lms[14].y && lms[20].y >= lms[18].y
    ensures Classify(lms) == Other
  {
    ClassifyOther(lms);
    assert Extended(lms, Fingers[0]) && !Extended(lms, Fingers[1]);
  }
}
