/** The face detection handler: hide the face cloud, the region parts
    (except the ears) and the optional face skeleton, then, when a face is
    present, refresh and show all of them. */
module Face {
  import opened Options
  import opened Geometry
  import opened Buffers
  import opened Tables
  import opened Render

  const FaceColor: int := 0x00ff00
  const EyeColor: int := 0x0000ff
  const MouthColor: int := 0xff0000
  const BrowColor: int := 0x000000
  const NoseColor: int := 0xffcc00
  const EarColor: int := 0xff9900

  /** One result of the face detector: the face landmark lists, absent when
      the result carries no such array. */
  datatype FaceResults = FaceResults(multiFaceLandmarks: Option<seq<seq<Landmark>>>)

  predicate HasFace(res: FaceResults) {
    res.multiFaceLandmarks.Some? && |res.multiFaceLandmarks.value| > 0
  }

  /** The one face the handler draws. */
  function FirstFace(res: FaceResults): seq<Landmark>
    requires HasFace(res)
  {
    res.multiFaceLandmarks.value[0]
  }

  /** The index tables of the five coloured regions. */
  datatype FaceRegions = FaceRegions(eye: seq<nat>, mouth: seq<nat>, nose: seq<nat>, brow: seq<nat>, ear: seq<nat>)
  {
    /** Region k: 0 eye, 1 mouth, 2 nose, 3 brow, anything else ear. */
    function Indices(k: nat): seq<nat> {
      if k == 0 then eye else if k == 1 then mouth else if k == 2 then nose else if k == 3 then brow else ear
    }
  }

  const Regions: FaceRegions := FaceRegions(EyeIndices, MouthIndices, NoseIndices, BrowIndices, EarIndices)

  /** Every region index is a face landmark. */
  lemma RegionsWithinFace(k: nat)
    ensures AllBelow(Regions.Indices(k), FaceLandmarkCount)
  {
    EyeIndicesShape();
    MouthIndicesShape();
    BrowIndicesShape();
    NoseAndEarIndicesShape();
  }

  /** The observable state of the face entities; the skeleton is absent
      when there is no tessellation table. */
  datatype FaceView = FaceView(
    face: Entity, eye: Entity, mouth: Entity, nose: Entity, brow: Entity, ear: Entity,
    skeleton: Option<Entity>)
  {
    /** Part k, numbered as in FaceRegions.Indices. */
    function Part(k: nat): Entity {
      if k == 0 then eye else if k == 1 then mouth else if k == 2 then nose else if k == 3 then brow else ear
    }
  }

  /** The tessellation, when there is one and a face, joins landmarks of
      that face. */
  predicate Fits(res: FaceResults, tessellation: Option<seq<Connection>>) {
    HasFace(res) && tessellation.Some? ==> ConnectionsWithin(tessellation.value, |FirstFace(res)|)
  }

  /** Hide the cloud, four of the parts and the skeleton; the ear part is
      left as it is. */
  function HideFace(v: FaceView): FaceView {
    v.(face := v.face.(visible := false),
       eye := v.eye.(visible := false),
       mouth := v.mouth.(visible := false),
       nose := v.nose.(visible := false),
       brow := v.brow.(visible := false),
       skeleton := if v.skeleton.Some? then Some(v.skeleton.value.(visible := false)) else None)
  }

  /** Refresh and show the cloud and the five parts from one face. */
  function ShowParts(v: FaceView, lms: seq<Landmark>, regions: FaceRegions): FaceView {
    v.(face := PointsUpdated(v.face, lms).(visible := true),
       eye := PartUpdated(v.eye, lms, regions.eye),
       mouth := PartUpdated(v.mouth, lms, regions.mouth),
       nose := PartUpdated(v.nose, lms, regions.nose),
       brow := PartUpdated(v.brow, lms, regions.brow),
       ear := PartUpdated(v.ear, lms, regions.ear))
  }

  /** Refresh (when there is a tessellation) and show the skeleton. */
  function ShowSkeleton(v: FaceView, lms: seq<Landmark>, tessellation: Option<seq<Connection>>): FaceView
    requires tessellation.Some? ==> ConnectionsWithin(tessellation.value, |lms|)
  {
    v.(skeleton :=
      if v.skeleton.None? then None
      else if tessellation.None? then Some(v.skeleton.value.(visible := true))
      else Some(SkeletonUpdated(v.skeleton.value, lms, tessellation.value).(visible := true)))
  }

  /** Refresh and show every face entity from the landmarks of one face. */
  function ShowFace(v: FaceView, lms: seq<Landmark>, tessellation: Option<seq<Connection>>, regions: FaceRegions): FaceView
    requires tessellation.Some? ==> ConnectionsWithin(tessellation.value, |lms|)
  {
    ShowSkeleton(ShowParts(v, lms, regions), lms, tessellation)
  }

  /** One call of the face handler. */
  function OnFace(v: FaceView, res: FaceResults, tessellation: Option<seq<Connection>>, regions: FaceRegions): FaceView
    requires Fits(res, tessellation)
  {
    var hidden := HideFace(v);
    if !HasFace(res) then hidden else ShowFace(hidden, FirstFace(res), tessellation, regions)
  }

  /** The face entities, created once at startup. */
  class FaceScene {
    const facePoints: Renderable
    const eyePoints: Renderable
    const mouthPoints: Renderable
    const nosePoints: Renderable
    const browPoints: Renderable
    const earPoints: Renderable
    /** Present exactly when there is a tessellation table. */
    const faceSkeleton: Renderable?
    const tessellation: Option<seq<Connection>>
    const regions: FaceRegions

    /** The buffers are pairwise distinct, the cloud holds 468 points, each
        part one point per index and the skeleton two points per
        tessellation edge. */
    ghost predicate Valid() {
      facePoints.positions != eyePoints.positions &&
      facePoints.positions != mouthPoints.positions &&
      facePoints.positions != nosePoints.positions &&
      facePoints.positions != browPoints.positions &&
      facePoints.positions != earPoints.positions &&
      eyePoints.positions != mouthPoints.positions &&
      eyePoints.positions != nosePoints.positions &&
      eyePoints.positions != browPoints.positions &&
      eyePoints.positions != earPoints.positions &&
      mouthPoints.positions != nosePoints.positions &&
      mouthPoints.positions != browPoints.positions &&
      mouthPoints.positions != earPoints.positions &&
      nosePoints.positions != browPoints.positions &&
      nosePoints.positions != earPoints.positions &&
      browPoints.positions != earPoints.positions &&
      (faceSkeleton != null <==> tessellation.Some?) &&
      (faceSkeleton != null ==>
        faceSkeleton.positions != facePoints.positions &&
        faceSkeleton.positions != eyePoints.positions &&
        faceSkeleton.positions != mouthPoints.positions &&
        faceSkeleton.positions != nosePoints.positions &&
        faceSkeleton.positions != browPoints.positions &&
        faceSkeleton.positions != earPoints.positions &&
        faceSkeleton.positions.Length == |tessellation.value| * 2 * 3) &&
      facePoints.positions.Length == FaceLandmarkCount * 3 &&
      eyePoints.positions.Length == |regions.eye| * 3 &&
      mouthPoints.positions.Length == |regions.mouth| * 3 &&
      nosePoints.positions.Length == |regions.nose| * 3 &&
      browPoints.positions.Length == |regions.brow| * 3 &&
      earPoints.positions.Length == |regions.ear| * 3
    }

    ghost function View(): FaceView
      reads facePoints, facePoints.positions, eyePoints, eyePoints.positions
      reads mouthPoints, mouthPoints.positions, nosePoints, nosePoints.positions
      reads browPoints, browPoints.positions, earPoints, earPoints.positions
      reads faceSkeleton, if faceSkeleton == null then {} else {faceSkeleton.positions}
    {
      FaceView(facePoints.View(), eyePoints.View(), mouthPoints.View(), nosePoints.View(),
               browPoints.View(), earPoints.View(),
               if faceSkeleton == null then None else Some(faceSkeleton.View()))
    }

    /** Every entity hidden, in its region's colour, with a zeroed buffer of
        its size; the skeleton exists exactly when a tessellation is given.
        The application passes Regions as the region tables. */
    constructor (tessellation: Option<seq<Connection>>, regions: FaceRegions)
      ensures Valid() && this.tessellation == tessellation && this.regions == regions
      ensures fresh(facePoints) && fresh(facePoints.positions) && fresh(eyePoints) && fresh(eyePoints.positions)
      ensures fresh(mouthPoints) && fresh(mouthPoints.positions) && fresh(nosePoints) && fresh(nosePoints.positions)
      ensures fresh(browPoints) && fresh(browPoints.positions) && fresh(earPoints) && fresh(earPoints.positions)
      ensures faceSkeleton != null ==> fresh(faceSkeleton) && fresh(faceSkeleton.positions)
      ensures View() == FaceView(
        Entity(seq(FaceLandmarkCount * 3, _ => 0.0), false, FaceColor, false),
        Entity(seq(|regions.eye| * 3, _ => 0.0), false, EyeColor, false),
        Entity(seq(|regions.mouth| * 3, _ => 0.0), false, MouthColor, false),
        Entity(seq(|regions.nose| * 3, _ => 0.0), false, NoseColor, false),
        Entity(seq(|regions.brow| * 3, _ => 0.0), false, BrowColor, false),
        Entity(seq(|regions.ear| * 3, _ => 0.0), false, EarColor, false),
        if tessellation.None? then None
        else Some(Entity(seq(|tessellation.value| * 2 * 3, _ => 0.0), false, FaceColor, false)))
    {
      this.tessellation := tessellation;
      this.regions := regions;
      facePoints := new Renderable(FaceColor, FaceLandmarkCount * 3);
      eyePoints := new Renderable(EyeColor, |regions.eye| * 3);
      mouthPoints := new Renderable(MouthColor, |regions.mouth| * 3);
      browPoints := new Renderable(BrowColor, |regions.brow| * 3);
      nosePoints := new Renderable(NoseColor, |regions.nose| * 3);
      earPoints := new Renderable(EarColor, |regions.ear| * 3);
      if tessellation.Some? {
        faceSkeleton := new Renderable(FaceColor, |tessellation.value| * 2 * 3);
      } else {
        faceSkeleton := null;
      }
    }

    /** Hide everything but the ear part. */
    method HideOn()
      requires Valid()
      modifies facePoints, eyePoints, mouthPoints, nosePoints, browPoints, faceSkeleton
      ensures View() == HideFace(old(View()))
    {
      facePoints.visible := false;
      eyePoints.visible := false;
      mouthPoints.visible := false;
      nosePoints.visible := false;
      browPoints.visible := false;
      if faceSkeleton != null {
        faceSkeleton.visible := false;
      }
      assert facePoints.View() == old(facePoints.View()).(visible := false);
      assert eyePoints.View() == old(eyePoints.View()).(visible := false);
      assert mouthPoints.View() == old(mouthPoints.View()).(visible := false);
      assert nosePoints.View() == old(nosePoints.View()).(visible := false);
      assert browPoints.View() == old(browPoints.View()).(visible := false);
      assert earPoints.View() == old(earPoints.View());
    }

    /** Refresh and show the cloud and the five parts from one face. */
    method ShowPointsOn(lms: seq<Landmark>)
      requires Valid()
      modifies facePoints, facePoints.positions, eyePoints, eyePoints.positions
      modifies mouthPoints, mouthPoints.positions, nosePoints, nosePoints.positions
      modifies browPoints, browPoints.positions, earPoints, earPoints.positions
      ensures View() == ShowParts(old(View()), lms, regions)
    {
      ghost var v := View();
      UpdatePoints(lms, facePoints);
      facePoints.visible := true;
      v := v.(face := PointsUpdated(v.face, lms).(visible := true));
      assert View() == v;
      UpdatePart(lms, regions.eye, eyePoints);
      v := v.(eye := PartUpdated(v.eye, lms, regions.eye));
      assert View() == v;
      UpdatePart(lms, regions.mouth, mouthPoints);
      v := v.(mouth := PartUpdated(v.mouth, lms, regions.mouth));
      assert View() == v;
      UpdatePart(lms, regions.nose, nosePoints);
      v := v.(nose := PartUpdated(v.nose, lms, regions.nose));
      assert View() == v;
      UpdatePart(lms, regions.brow, browPoints);
      v := v.(brow := PartUpdated(v.brow, lms, regions.brow));
      assert View() == v;
      UpdatePart(lms, regions.ear, earPoints);
    }

    /** Refresh and show the skeleton from one face. */
    method ShowSkeletonOn(lms: seq<Landmark>)
      requires Valid()
      requires tessellation.Some? ==> ConnectionsWithin(tessellation.value, |lms|)
      modifies faceSkeleton, if faceSkeleton == null then {} else {faceSkeleton.positions}
      ensures View() == ShowSkeleton(old(View()), lms, tessellation)
    {
      UpdateFaceSkeleton(lms, tessellation, faceSkeleton);
      if faceSkeleton != null {
        faceSkeleton.visible := true;
      }
    }

    /** Refresh and show every entity from one face. */
    method ShowOn(lms: seq<Landmark>)
      requires Valid()
      requires tessellation.Some? ==> ConnectionsWithin(tessellation.value, |lms|)
      modifies facePoints, facePoints.positions, eyePoints, eyePoints.positions
      modifies mouthPoints, mouthPoints.positions, nosePoints, nosePoints.positions
      modifies browPoints, browPoints.positions, earPoints, earPoints.positions
      modifies faceSkeleton, if faceSkeleton == null then {} else {faceSkeleton.positions}
      ensures View() == ShowFace(old(View()), lms, tessellation, regions)
    {
      ShowPointsOn(lms);
      ShowSkeletonOn(lms);
    }

    /** The face handler. */
    method OnResults(res: FaceResults)
      requires Valid() && Fits(res, tessellation)
      modifies facePoints, facePoints.positions, eyePoints, eyePoints.positions
      modifies mouthPoints, mouthPoints.positions, nosePoints, nosePoints.positions
      modifies browPoints, browPoints.positions, earPoints, earPoints.positions
      modifies faceSkeleton, if faceSkeleton == null then {} else {faceSkeleton.positions}
      ensures View() == OnFace(old(View()), res, tessellation, regions)
    {
      HideOn();
      if res.multiFaceLandmarks.None? || |res.multiFaceLandmarks.value| == 0 {
        return;
      }
      ShowOn(res.multiFaceLandmarks.value[0]);
    }
  }

  // ---------------------------------------------------------------------
  // Properties of the handler.

  /** Without a face, the cloud, the four parts and the skeleton are hidden,
      the ear part keeps its state, and no buffer changes. */
  lemma OnFaceNoFace(v: FaceView, res: FaceResults, tessellation: Option<seq<Connection>>, regions: FaceRegions)
    requires !HasFace(res)
    ensures var r := OnFace(v, res, tessellation, regions);
      !r.face.visible && !r.eye.visible && !r.mouth.visible && !r.nose.visible && !r.brow.visible &&
      r.ear == v.ear &&
      r.face.positions == v.face.positions &&
      (forall k: nat :: r.Part(k).positions == v.Part(k).positions) &&
      r.skeleton.Some? == v.skeleton.Some? &&
      (r.skeleton.Some? ==> !r.skeleton.value.visible && r.skeleton.value.positions == v.skeleton.value.positions)
  {
  }

  /** With a face, every entity is shown, the ear part included. */
  lemma OnFaceShowsAll(v: FaceView, res: FaceResults, tessellation: Option<seq<Connection>>, regions: FaceRegions)
    requires Fits(res, tessellation) && HasFace(res)
    ensures var r := OnFace(v, res, tessellation, regions);
      r.face.visible && (forall k: nat :: r.Part(k).visible) &&
      r.skeleton.Some? == v.skeleton.Some? && (r.skeleton.Some? ==> r.skeleton.value.visible)
  {
  }

  /** The buffers hold the new face: the cloud holds the first 468 mapped
      landmarks, a part cell holds the mapped coordinate of its indexed
      landmark when that landmark exists and its stale value otherwise. */
  lemma OnFacePartAt(v: FaceView, res: FaceResults, tessellation: Option<seq<Connection>>, regions: FaceRegions, k: nat, j: nat)
    requires Fits(res, tessellation) && HasFace(res)
    requires j < |v.Part(k).positions|
    ensures var r := OnFace(v, res, tessellation, regions);
      var lms := FirstFace(res);
      var idx := regions.Indices(k);
      |r.Part(k).positions| == |v.Part(k).positions| &&
      r.Part(k).positions[j] ==
        if j / 3 < |idx| && idx[j / 3] < |lms| then Coord(Map(lms[idx[j / 3]]), j % 3)
        else v.Part(k).positions[j]
  {
  }

  /** The face cloud after a face: every cell of a landmark holds its mapped
      coordinate; with 468 or more landmarks nothing stale survives and the
      landmarks past the buffer are dropped. */
  lemma OnFaceCloudAt(v: FaceView, res: FaceResults, tessellation: Option<seq<Connection>>, regions: FaceRegions, j: nat)
    requires Fits(res, tessellation) && HasFace(res)
    requires |v.face.positions| == FaceLandmarkCount * 3 <= 3 * |FirstFace(res)|
    requires j < |v.face.positions|
    ensures OnFace(v, res, tessellation, regions).face.positions[j] == Coord(Map(FirstFace(res)[j / 3]), j % 3)
  {
  }

  /** Startup followed by the first face result, without a tessellation
      table: the scene created at startup can be handed to the handler. */
  method StartFace(res: FaceResults) returns (s: FaceScene)
    ensures s.tessellation == None && s.regions == Regions
    ensures s.View() == OnFace(FaceView(
        Entity(seq(FaceLandmarkCount * 3, _ => 0.0), false, FaceColor, false),
        Entity(seq(|Regions.eye| * 3, _ => 0.0), false, EyeColor, false),
        Entity(seq(|Regions.mouth| * 3, _ => 0.0), false, MouthColor, false),
        Entity(seq(|Regions.nose| * 3, _ => 0.0), false, NoseColor, false),
        Entity(seq(|Regions.brow| * 3, _ => 0.0), false, BrowColor, false),
        Entity(seq(|Regions.ear| * 3, _ => 0.0), false, EarColor, false),
        None), res, None, Regions)
  {
    s := new FaceScene(None, Regions);
    s.OnResults(res);
  }

  /** Several frames in a row. */
  function OnFaces(v: FaceView, frames: seq<FaceResults>, tessellation: Option<seq<Connection>>, regions: FaceRegions): FaceView
    requires forall i | 0 <= i < |frames| :: Fits(frames[i], tessellation)
    decreases |frames|
  {
    if frames == [] then v
    else
      var n := |frames| - 1;
      OnFace(OnFaces(v, frames[..n], tessellation, regions), frames[n], tessellation, regions)
  }

  /** The ear part is never hidden again: after a run of frames it is
      visible exactly when it was before or some frame had a face. The
      cloud, by contrast, follows the last frame only. */
  lemma {:induction false} EarsStayVisible(v: FaceView, frames: seq<FaceResults>, tessellation: Option<seq<Connection>>, regions: FaceRegions)
    requires forall i | 0 <= i < |frames| :: Fits(frames[i], tessellation)
    ensures OnFaces(v, frames, tessellation, regions).ear.visible ==
      (v.ear.visible || exists i | 0 <= i < |frames| :: HasFace(frames[i]))
    ensures |frames| > 0 ==> OnFaces(v, frames, tessellation, regions).face.visible == HasFace(frames[|frames| - 1])
    decreases |frames|
  {
    if frames != [] {
      var n := |frames| - 1;
      EarsStayVisible(v, frames[..n], tessellation, regions);
      assert forall i | 0 <= i < n :: frames[..n][i] == frames[i];
      if !HasFace(frames[n]) {
        assert (exists i | 0 <= i < |frames| :: HasFace(frames[i])) ==
               (exists i | 0 <= i < n :: HasFace(frames[..n][i]));
      }
    }
  }
}
