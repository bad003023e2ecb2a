/** The hands detection handler: hide the four hand entities, then for each
    detected hand refresh and show the points and skeleton of its side and
    colour its points by gesture. */
module Hands {
  import opened Options
  import opened Geometry
  import opened Buffers
  import opened Gesture
  import opened Tables
  import opened Render

  const LeftColor: int := 0x00ffff
  const RightColor: int := 0xff00ff
  const OpenColor: int := 0x00ff00
  const FistColor: int := 0xff0000

  /** One result of the hand detector: the landmark lists (absent when the
      result carries no such array) and, per hand, an optional label. */
  datatype HandsResults = HandsResults(
    multiHandLandmarks: Option<seq<seq<Landmark>>>,
    multiHandedness: seq<Option<string>>)

  /** The detected hands, none when the array is absent. */
  function Detected(res: HandsResults): seq<seq<Landmark>> {
    if res.multiHandLandmarks.Some? then res.multiHandLandmarks.value else []
  }

  predicate HasHands(res: HandsResults) {
    |Detected(res)| > 0
  }

  /** The label of hand i, "Unknown" when it is missing or empty. */
  function Handedness(res: HandsResults, i: nat): string {
    if i < |res.multiHandedness| && res.multiHandedness[i].Some? && res.multiHandedness[i].value != ""
    then res.multiHandedness[i].value
    else "Unknown"
  }

  /** Only a hand labelled "Left" goes to the left pair. */
  predicate IsLeft(res: HandsResults, i: nat) {
    Handedness(res, i) == "Left"
  }

  /** A hand without a label, or with an empty one, is "Unknown" and goes
      to the right pair, as does any label other than "Left". */
  lemma UnlabelledHandIsRight(res: HandsResults, i: nat)
    ensures (i >= |res.multiHandedness| || res.multiHandedness[i] == None || res.multiHandedness[i] == Some(""))
      ==> Handedness(res, i) == "Unknown" && !IsLeft(res, i)
    ensures IsLeft(res, i) <==> i < |res.multiHandedness| && res.multiHandedness[i] == Some("Left")
  {
  }

  /** Every detected hand has all 21 hand landmarks. */
  predicate FullHands(res: HandsResults) {
    forall i | 0 <= i < |Detected(res)| :: |Detected(res)[i]| >= HandLandmarkCount
  }

  /** Every hand has the landmarks the skeleton's connections read. */
  predicate WellFormed(res: HandsResults, conns: seq<Connection>) {
    forall i | 0 <= i < |Detected(res)| :: ConnectionsWithin(conns, |Detected(res)[i]|)
  }

  /** The points colour for a gesture: green when open, red for a fist,
      the side's own colour otherwise. */
  function PointColor(g: Gesture, left: bool): int {
    match g
    case Open => OpenColor
    case Fist => FistColor
    case Other => if left then LeftColor else RightColor
  }

  /** The observable state of the four hand entities. */
  datatype HandsView = HandsView(leftPoints: Entity, rightPoints: Entity, leftSkeleton: Entity, rightSkeleton: Entity)
  {
    function Points(left: bool): Entity { if left then leftPoints else rightPoints }
    function Skeleton(left: bool): Entity { if left then leftSkeleton else rightSkeleton }

    /** This view with the pair of one side replaced. */
    function WithSide(left: bool, points: Entity, skeleton: Entity): (r: HandsView)
      ensures r.Points(left) == points && r.Skeleton(left) == skeleton
      ensures r.Points(!left) == Points(!left) && r.Skeleton(!left) == Skeleton(!left)
    {
      if left then this.(leftPoints := points, leftSkeleton := skeleton)
      else this.(rightPoints := points, rightSkeleton := skeleton)
    }
  }

  /** Every hand entity hidden, nothing else changed. */
  function HideAll(v: HandsView): HandsView {
    HandsView(v.leftPoints.(visible := false), v.rightPoints.(visible := false),
              v.leftSkeleton.(visible := false), v.rightSkeleton.(visible := false))
  }

  /** The effect of one detected hand on the pair of its side, with conns
      the skeleton's connection table. */
  function ShowHand(v: HandsView, lms: seq<Landmark>, left: bool, conns: seq<Connection>): HandsView
    requires ConnectionsWithin(conns, |lms|)
  {
    v.WithSide(left, HandPoints(v.Points(left), lms, left), HandSkeleton(v.Skeleton(left), lms, conns))
  }

  /** A side's points: refreshed, shown and coloured by gesture. */
  function HandPoints(e: Entity, lms: seq<Landmark>, left: bool): (r: Entity)
    ensures |r.positions| == |e.positions| && r.visible
  {
    PointsUpdated(e, lms).(visible := true, color := PointColor(Classify(lms), left))
  }

  /** A side's skeleton: refreshed and shown. */
  function HandSkeleton(e: Entity, lms: seq<Landmark>, conns: seq<Connection>): (r: Entity)
    requires ConnectionsWithin(conns, |lms|)
    ensures |r.positions| == |e.positions| && r.visible && r.color == e.color
  {
    SkeletonUpdated(e, lms, conns).(visible := true)
  }

  /** The effect of the first n detected hands, in order. */
  function ShowHands(v: HandsView, res: HandsResults, n: nat, conns: seq<Connection>): HandsView
    requires WellFormed(res, conns) && n <= |Detected(res)|
  {
    if n == 0 then v
    else ShowHand(ShowHands(v, res, n - 1, conns), Detected(res)[n - 1], IsLeft(res, n - 1), conns)
  }

  /** One call of the hands handler. */
  function OnHands(v: HandsView, res: HandsResults, conns: seq<Connection>): HandsView
    requires WellFormed(res, conns)
  {
    var hidden := HideAll(v);
    if !HasHands(res) then hidden else ShowHands(hidden, res, |Detected(res)|, conns)
  }

  /** The four hand entities, created once at startup. */
  class HandScene {
    const leftPoints: Renderable
    const rightPoints: Renderable
    const leftSkeleton: Renderable
    const rightSkeleton: Renderable
    /** The skeleton's connection table. */
    const connections: seq<Connection>

    /** The connections join hand landmarks, the four buffers are distinct
        and each has its size. */
    ghost predicate Valid() {
      ConnectionsWithin(connections, HandLandmarkCount) && Distinct() && Sized()
    }

    /** The four buffers are distinct, hence so are the entities. */
    ghost predicate Distinct() {
      leftPoints.positions != rightPoints.positions &&
      leftPoints.positions != leftSkeleton.positions &&
      leftPoints.positions != rightSkeleton.positions &&
      rightPoints.positions != leftSkeleton.positions &&
      rightPoints.positions != rightSkeleton.positions &&
      leftSkeleton.positions != rightSkeleton.positions
    }

    /** Each point buffer holds 21 points, each skeleton buffer two points
        per connection. */
    ghost predicate Sized() {
      leftPoints.positions.Length == HandLandmarkCount * 3 &&
      rightPoints.positions.Length == HandLandmarkCount * 3 &&
      leftSkeleton.positions.Length == |connections| * 2 * 3 &&
      rightSkeleton.positions.Length == |connections| * 2 * 3
    }

    ghost function View(): HandsView
      reads leftPoints, leftPoints.positions, rightPoints, rightPoints.positions
      reads leftSkeleton, leftSkeleton.positions, rightSkeleton, rightSkeleton.positions
    {
      HandsView(leftPoints.View(), rightPoints.View(), leftSkeleton.View(), rightSkeleton.View())
    }

    /** Both hands hidden with zeroed 63-cell point buffers and 120-cell
        skeleton buffers, in the sides' own colours. */
    constructor ()
      ensures Valid() && connections == Connections
      ensures fresh(leftPoints) && fresh(leftPoints.positions) && fresh(rightPoints) && fresh(rightPoints.positions)
      ensures fresh(leftSkeleton) && fresh(leftSkeleton.positions) && fresh(rightSkeleton) && fresh(rightSkeleton.positions)
      ensures View() == HandsView(
        Entity(seq(63, _ => 0.0), false, LeftColor, false),
        Entity(seq(63, _ => 0.0), false, RightColor, false),
        Entity(seq(120, _ => 0.0), false, LeftColor, false),
        Entity(seq(120, _ => 0.0), false, RightColor, false))
    {
      connections := Connections;
      ConnectionsShape();
      leftPoints := new Renderable(LeftColor, HandLandmarkCount * 3);
      rightPoints := new Renderable(RightColor, HandLandmarkCount * 3);
      leftSkeleton := new Renderable(LeftColor, |Connections| * 2 * 3);
      rightSkeleton := new Renderable(RightColor, |Connections| * 2 * 3);
    }

    /** Detected hand number index: refresh and show the pair of its side,
        colour the points by gesture. */
    method ShowHandOn(res: HandsResults, index: nat)
      requires Valid() && WellFormed(res, connections) && index < |Detected(res)|
      modifies leftPoints, leftPoints.positions, rightPoints, rightPoints.positions
      modifies leftSkeleton, leftSkeleton.positions, rightSkeleton, rightSkeleton.positions
      ensures View() == ShowHand(old(View()), Detected(res)[index], IsLeft(res, index), connections)
    {
      var lms := Detected(res)[index];
      var handedness := Handedness(res, index);
      var left := handedness == "Left";
      var points := if left then leftPoints else rightPoints;
      var skeleton := if left then leftSkeleton else rightSkeleton;
      ghost var v := View();
      UpdatePoints(lms, points);
      points.visible := true;
      ghost var shown := PointsUpdated(v.Points(left), lms).(visible := true);
      assert View() == v.WithSide(left, shown, v.Skeleton(left));
      UpdateSkeleton(lms, connections, skeleton);
      skeleton.visible := true;
      assert View() == v.WithSide(left, shown, SkeletonUpdated(v.Skeleton(left), lms, connections).(visible := true));
      var gesture := DetectGesture(lms);
      if gesture == Open {
        points.color := OpenColor;
      } else if gesture == Fist {
        points.color := FistColor;
      } else {
        points.color := if left then LeftColor else RightColor;
      }
    }

    /** Apply hand number index on top of the hands before it. */
    method ShowNextOn(res: HandsResults, index: nat, ghost start: HandsView)
      requires Valid() && WellFormed(res, connections) && index < |Detected(res)|
      requires View() == ShowHands(start, res, index, connections)
      modifies leftPoints, leftPoints.positions, rightPoints, rightPoints.positions
      modifies leftSkeleton, leftSkeleton.positions, rightSkeleton, rightSkeleton.positions
      ensures View() == ShowHands(start, res, index + 1, connections)
    {
      ShowHandOn(res, index);
    }

    /** Show the detected hands one after the other. */
    method ShowAll(res: HandsResults)
      requires Valid() && WellFormed(res, connections)
      modifies leftPoints, leftPoints.positions, rightPoints, rightPoints.positions
      modifies leftSkeleton, leftSkeleton.positions, rightSkeleton, rightSkeleton.positions
      ensures View() == ShowHands(old(View()), res, |Detected(res)|, connections)
    {
      var i := 0;
      while i < |Detected(res)|
        invariant i <= |Detected(res)|
        invariant View() == ShowHands(old(View()), res, i, connections)
      {
        ShowNextOn(res, i, old(View()));
        i := i + 1;
      }
    }

    /** The hands handler. */
    method OnResults(res: HandsResults)
      requires Valid() && FullHands(res)
      modifies leftPoints, leftPoints.positions, rightPoints, rightPoints.positions
      modifies leftSkeleton, leftSkeleton.positions, rightSkeleton, rightSkeleton.positions
      ensures WellFormed(res, connections)
      ensures View() == OnHands(old(View()), res, connections)
    {
      FullHandsFit(res, connections);
      leftPoints.visible := false;
      rightPoints.visible := false;
      leftSkeleton.visible := false;
      rightSkeleton.visible := false;
      if res.multiHandLandmarks.None? || |res.multiHandLandmarks.value| == 0 {
        return;
      }
      ShowAll(res);
    }
  }

  /** Startup followed by the first hands result: the scene created at
      startup can be handed to the handler. */
  method StartHands(res: HandsResults) returns (s: HandScene)
    requires FullHands(res)
    ensures s.connections == Connections && WellFormed(res, s.connections)
    ensures s.View() == OnHands(HandsView(
        Entity(seq(63, _ => 0.0), false, LeftColor, false),
        Entity(seq(63, _ => 0.0), false, RightColor, false),
        Entity(seq(120, _ => 0.0), false, LeftColor, false),
        Entity(seq(120, _ => 0.0), false, RightColor, false)), res, s.connections)
  {
    s := new HandScene();
    s.OnResults(res);
  }

  /** Full hands fit any table of connections between hand landmarks. */
  lemma FullHandsFit(res: HandsResults, conns: seq<Connection>)
    requires FullHands(res) && ConnectionsWithin(conns, HandLandmarkCount)
    ensures WellFormed(res, conns)
  {
    forall i | 0 <= i < |Detected(res)|
      ensures ConnectionsWithin(conns, |Detected(res)[i]|)
    {
    }
  }

  // ---------------------------------------------------------------------
  // Properties of the handler, for any connection table the hands fit.

  /** With no hands every hand entity is hidden and nothing else changes. */
  lemma OnHandsNoHands(v: HandsView, res: HandsResults, conns: seq<Connection>)
    requires WellFormed(res, conns) && !HasHands(res)
    ensures OnHands(v, res, conns) == HandsView(
      v.leftPoints.(visible := false), v.rightPoints.(visible := false),
      v.leftSkeleton.(visible := false), v.rightSkeleton.(visible := false))
  {
  }

  /** One hand shows both entities of its side and leaves the other side
      alone. */
  lemma ShowHandSides(v: HandsView, lms: seq<Landmark>, left: bool, conns: seq<Connection>)
    requires ConnectionsWithin(conns, |lms|)
    ensures ShowHand(v, lms, left, conns).Points(left).visible
    ensures ShowHand(v, lms, left, conns).Skeleton(left).visible
    ensures ShowHand(v, lms, left, conns).Points(!left) == v.Points(!left)
    ensures ShowHand(v, lms, left, conns).Skeleton(!left) == v.Skeleton(!left)
  {
  }

  /** A side is visible after the first n hands exactly when it was before
      or one of them is of that side. */
  lemma {:induction false} ShowHandsVisible(v: HandsView, res: HandsResults, n: nat, conns: seq<Connection>, left: bool)
    requires WellFormed(res, conns) && n <= |Detected(res)|
    ensures ShowHands(v, res, n, conns).Points(left).visible ==
      (v.Points(left).visible || exists i | 0 <= i < n :: IsLeft(res, i) == left)
    ensures ShowHands(v, res, n, conns).Skeleton(left).visible ==
      (v.Skeleton(left).visible || exists i | 0 <= i < n :: IsLeft(res, i) == left)
  {
    if n > 0 {
      ShowHandsVisible(v, res, n - 1, conns, left);
      var prev := ShowHands(v, res, n - 1, conns);
      var side := IsLeft(res, n - 1);
      ShowHandSides(prev, Detected(res)[n - 1], side, conns);
      if side != left {
        assert (exists i | 0 <= i < n :: IsLeft(res, i) == left) ==
               (exists i | 0 <= i < n - 1 :: IsLeft(res, i) == left);
      }
    }
  }

  /** Level-triggered visibility: after the handler a side's points and
      skeleton are shown exactly when some detected hand is of that side,
      whatever was shown before. */
  lemma OnHandsVisible(v: HandsView, res: HandsResults, conns: seq<Connection>, left: bool)
    requires WellFormed(res, conns)
    ensures OnHands(v, res, conns).Points(left).visible <==>
      exists i | 0 <= i < |Detected(res)| :: IsLeft(res, i) == left
    ensures OnHands(v, res, conns).Skeleton(left).visible <==>
      exists i | 0 <= i < |Detected(res)| :: IsLeft(res, i) == left
  {
    if HasHands(res) {
      ShowHandsVisible(HideAll(v), res, |Detected(res)|, conns, left);
    }
  }

  /** Hands of the other side leave a side's pair alone. */
  lemma {:induction false} ShowHandsOtherSide(v: HandsView, res: HandsResults, m: nat, n: nat, conns: seq<Connection>, left: bool)
    requires WellFormed(res, conns) && m <= n <= |Detected(res)|
    requires forall i | m <= i < n :: IsLeft(res, i) != left
    ensures ShowHands(v, res, n, conns).Points(left) == ShowHands(v, res, m, conns).Points(left)
    ensures ShowHands(v, res, n, conns).Skeleton(left) == ShowHands(v, res, m, conns).Skeleton(left)
    decreases n - m
  {
    if m < n {
      ShowHandsOtherSide(v, res, m, n - 1, conns, left);
      assert IsLeft(res, n - 1) != left;
    }
  }

  /** A side with no detected hand keeps its buffers and colour and is
      hidden. In particular a frame without hands changes no buffer. */
  lemma OnHandsAbsentSide(v: HandsView, res: HandsResults, conns: seq<Connection>, left: bool)
    requires WellFormed(res, conns)
    requires forall i | 0 <= i < |Detected(res)| :: IsLeft(res, i) != left
    ensures OnHands(v, res, conns).Points(left) == v.Points(left).(visible := false)
    ensures OnHands(v, res, conns).Skeleton(left) == v.Skeleton(left).(visible := false)
  {
    if HasHands(res) {
      ShowHandsOtherSide(HideAll(v), res, 0, |Detected(res)|, conns, left);
    }
  }

  /** The handler never resizes a buffer nor recolours a skeleton. */
  lemma {:induction false} ShowHandsKeepsShape(v: HandsView, res: HandsResults, n: nat, conns: seq<Connection>, left: bool)
    requires WellFormed(res, conns) && n <= |Detected(res)|
    ensures |ShowHands(v, res, n, conns).Points(left).positions| == |v.Points(left).positions|
    ensures |ShowHands(v, res, n, conns).Skeleton(left).positions| == |v.Skeleton(left).positions|
    ensures ShowHands(v, res, n, conns).Skeleton(left).color == v.Skeleton(left).color
  {
    if n > 0 {
      ShowHandsKeepsShape(v, res, n - 1, conns, left);
      ShowHandKeepsShape(ShowHands(v, res, n - 1, conns), Detected(res)[n - 1], IsLeft(res, n - 1), conns, left);
    }
  }

  /** One hand resizes no buffer and recolours no skeleton, on either side. */
  lemma ShowHandKeepsShape(v: HandsView, lms: seq<Landmark>, side: bool, conns: seq<Connection>, left: bool)
    requires ConnectionsWithin(conns, |lms|)
    ensures |ShowHand(v, lms, side, conns).Points(left).positions| == |v.Points(left).positions|
    ensures |ShowHand(v, lms, side, conns).Skeleton(left).positions| == |v.Skeleton(left).positions|
    ensures ShowHand(v, lms, side, conns).Skeleton(left).color == v.Skeleton(left).color
  {
  }

  /** The last hand of a side decides that side: its points show exactly
      that hand's mapped landmarks (no earlier hand and no stale cell
      survives when the hand fills the buffer), coloured by its gesture, and
      its skeleton shows exactly that hand's connections. */
  lemma OnHandsLastHand(v: HandsView, res: HandsResults, conns: seq<Connection>, i: nat, left: bool)
    requires WellFormed(res, conns) && i < |Detected(res)| && IsLeft(res, i) == left
    requires forall j | i < j < |Detected(res)| :: IsLeft(res, j) != left
    requires |v.Points(left).positions| <= 3 * |Detected(res)[i]|
    requires |v.Skeleton(left).positions| == 6 * |conns|
    ensures OnHands(v, res, conns).Points(left) ==
      Entity(WritePoints(v.Points(left).positions, Detected(res)[i]), true,
             PointColor(Classify(Detected(res)[i]), left), true)
    ensures OnHands(v, res, conns).Skeleton(left) ==
      Entity(WriteLines(v.Skeleton(left).positions, Detected(res)[i], conns), true,
             v.Skeleton(left).color, true)
  {
    var hidden := HideAll(v);
    var lms := Detected(res)[i];
    ShowHandsOtherSide(hidden, res, i + 1, |Detected(res)|, conns, left);
    var before := ShowHands(hidden, res, i, conns);
    ShowHandsKeepsShape(hidden, res, i, conns, left);
    WritePointsCovers(before.Points(left).positions, v.Points(left).positions, lms);
    WriteLinesCovers(before.Skeleton(left).positions, v.Skeleton(left).positions, lms, conns);
  }

  /** A single open hand labelled "Left" turns the left points green and
      shows them; the right pair stays hidden. */
  lemma OpenLeftHandScenario(v: HandsView, lms: seq<Landmark>, conns: seq<Connection>)
    requires |lms| == 21 && ConnectionsWithin(conns, 21)
    requires forall i | 0 <= i < 4 :: lms[Fingers[i].tip].y == 0.1 && lms[Fingers[i].pip].y == 0.5
    requires |v.leftPoints.positions| == 63 && |v.leftSkeleton.positions| == 6 * |conns|
    ensures WellFormed(HandsResults(Some([lms]), [Some("Left")]), conns)
    ensures var r := OnHands(v, HandsResults(Some([lms]), [Some("Left")]), conns);
      r.leftPoints.visible && r.leftPoints.color == OpenColor && r.leftSkeleton.visible &&
      !r.rightPoints.visible && !r.rightSkeleton.visible
  {
    var res := HandsResults(Some([lms]), [Some("Left")]);
    assert Handedness(res, 0) == "Left";
    OpenHandExample(lms);
    OnHandsLastHand(v, res, conns, 0, true);
    OnHandsAbsentSide(v, res, conns, false);
  }
}
