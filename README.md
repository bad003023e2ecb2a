# hand-mirror: a Dafny model of the landmark-to-scene core

hand-mirror draws webcam landmarks in a 3D scene. A hand detector and a face
detector report landmarks for each video frame. Two result handlers copy those
landmarks into the vertex buffers of long-lived scene entities, then decide
which entities are shown and in which colour. The entities are:

- two hand point clouds and two hand skeletons, one per side;
- a face cloud of 468 points;
- five coloured face regions: eyes, mouth, nose, brows and ears;
- an optional face skeleton.

This project models that core, which sits in `hand-mirror/main.js`:

- **Coordinate mapper** (module `Geometry`). The affine map from normalised
  detector space to scene space, with the y axis flipped.
- **Buffer writers** (modules `Buffers` and `Render`).
  - `Buffers` gives each writer a specification function over the buffer's
    contents. The function says cell by cell what the writer leaves: each
    writer fills every cell at most once, so the buffer is fixed by where
    each cell's value comes from. A step lemma per writer shows that the
    writer's stores, one loop iteration at a time, build that buffer.
  - `Render` holds the writers themselves. They are imperative methods that
    overwrite an `array<real>` owned by a `Renderable` object, which also
    carries `visible`, `color` and the `needsUpdate` flag.
- **Gesture classifier** (module `Gesture`). A counting loop over four
  (tip, PIP joint) finger pairs, proved against a counting function.
- **Static index tables** (module `Tables`). The skeleton connections, plus
  the eye, mouth, nose, brow and ear index lists. The lists are built the way
  the source builds them: ranges of keys, shifted, filtered and
  concatenated.
- **The two result handlers** (modules `Hands` and `Face`).
  - Each one is a method of a scene class that holds the entities.
  - Each is proved against a function on the scene's observable state (its
    "view": every entity's buffer contents, visibility, colour and update
    flag).
  - The properties of the handlers are lemmas about those functions.

Modelling decisions:

- **Out-of-range stores.** A store past the end of a typed array is
  discarded, as JavaScript typed arrays do (`Buffers.Store`). This matters
  for the face cloud. The detector runs with refined landmarks, so a face can
  carry more landmarks than the 468 points the buffer holds.
- **Skeleton endpoints.** The skeleton writers require every connection
  endpoint to index an existing landmark. The source would throw on a
  missing one. The specification function `Buffers.WriteLines` is total: a
  connection with a missing endpoint leaves its segment's cells as they
  were. Nothing in the model relies on that case.
- **Hand size.** The hands handler requires every detected hand to carry the
  21 hand landmarks.
- **Tessellation.** The face tessellation table comes from an external
  script. It is a parameter here: either absent, or a list of connections.
  It is passed to the face scene's constructor, as are the region tables;
  the application passes `Face.Regions`.
- **Detector results.** A missing `results` object, and a landmark field
  that is not an array, are both the `None` of an `Option`.
- **Hand labels.** A hand's label is an optional string.
- **Gestures.** The gesture strings "open", "fist" and "other" are the
  datatype `Gesture.Gesture`.
- **Colours.** Colours are integers with the source's hexadecimal values.

Behaviour of `main.js` that the model keeps:

- The classifier compares raw detector y values (`tip.y < pip.y`,
  main.js:137).
- It returns Open when the count is at least 4, and
  `Gesture.CountExtended` bounds the count by 4.
- A finger with a missing landmark, or with its tip level with its joint,
  is not extended, so Fist means no finger extended
  (`Gesture.ClassifyFist`).
- The face handler never hides the ear part. Once a face has been seen, the
  ears stay visible (`Face.EarsStayVisible`).

## Model

| member | source | states |
|---|---|---|
| Geometry.Unmap | hand-mirror/main.js:119-121 | Unmap is a right inverse of the mapper: `Map(Unmap(p)) == p` for every scene point |
| Geometry.UnmapMap | hand-mirror/main.js:119-121 | Unmap is also a left inverse: `Unmap(Map(l)) == l` |
| Geometry.MapIsAffine | hand-mirror/main.js:119-121 | differences scale by 10 on x, by -8 on y (the flipped axis) and by 5 on z |
| Geometry.MapCentre | hand-mirror/main.js:119-121 | the frame centre (0.5, 0.5, z) maps to (0, 0, 5z) |
| Geometry.MapTopLeft | hand-mirror/main.js:119-121 | (0, 0, 0) maps to (-5, 4, 0) |
| Geometry.MapYStrictlyDecreasing | hand-mirror/main.js:120 | y1 < y2 exactly when mapY(y1) > mapY(y2) |
| Geometry.MapXZStrictlyIncreasing | hand-mirror/main.js:119-121 | mapX and mapZ preserve strict order, in both directions |
| Geometry.MapInjective | hand-mirror/main.js:119-121 | two landmarks map to the same point exactly when they are equal |
| Buffers.StorePointCell | hand-mirror/main.js:148-150 | one point store puts the point's coordinates in its three cells and leaves every other cell unchanged |
| Buffers.WritePointsStep | hand-mirror/main.js:147-151 | storing landmark i at slot 3i after the first i landmarks gives `WritePoints` of the first i + 1 landmarks, where cell j holds coordinate j % 3 of mapped landmark j / 3 when that landmark exists, its old value otherwise, and stores past the end are discarded |
| Buffers.WritePointsNone | hand-mirror/main.js:146-147 | before any landmark is written the buffer is as it was |
| Buffers.WritePointsIdempotent | hand-mirror/main.js:145-153 | running the point writer twice on the same landmarks leaves the same buffer as running it once |
| Buffers.WritePointsCovers | hand-mirror/main.js:145-153 | when the landmarks fill the buffer, the result does not depend on the old contents |
| Buffers.ConnectionsWithinPrefix | hand-mirror/main.js:157-158 | every prefix of a connection table whose endpoints are within n landmarks is also within them |
| Buffers.WriteLinesStep | hand-mirror/main.js:157-166 | storing both endpoints of connection i = (a, b) at slots 6i and 6i + 3 after the first i connections gives `WriteLines` of the first i + 1 connections, where cells 6i..6i+2 hold mapped landmark a, cells 6i+3..6i+5 mapped landmark b, and every cell past 6 times the table's length keeps its value |
| Buffers.WriteLinesNone | hand-mirror/main.js:156-157 | before any segment is written the buffer is as it was |
| Buffers.WriteLinesIdempotent | hand-mirror/main.js:155-168 | running the skeleton writer twice leaves the same buffer as running it once |
| Buffers.WriteLinesCovers | hand-mirror/main.js:155-168 | a buffer of exactly 6 cells per connection is overwritten completely, so no old cell survives |
| Buffers.WritePartStep | hand-mirror/main.js:244-250 | index i stores its landmark at slot 3i when that landmark exists and skips it otherwise, giving `WritePart` of the first i + 1 indices, where a cell holds the mapped coordinate of landmark indices[j / 3] when it exists, and a cell of a missing landmark, or from 3 times the number of indices on, keeps its old value |
| Buffers.WritePartNone | hand-mirror/main.js:243-244 | before any index is processed the buffer is as it was |
| Buffers.WritePartIdempotent | hand-mirror/main.js:242-251 | running the part writer twice leaves the same buffer as running it once |
| Buffers.WritePointsIsWritePart | hand-mirror/main.js:145-153 | the point writer gives the same buffer as the part writer (lines 242-251) over the identity index list 0, 1, ..., n-1 |
| Render.Renderable.constructor | hand-mirror/main.js:19-27 | as in each create function (lines 19-27, 44-52, 58-66, 76-84, 200-208), a new entity is hidden, has the given colour, and has a zero-filled buffer of the given size |
| Render.StoreAt | hand-mirror/main.js:148 | one typed-array store: in range it writes the cell, past the end it changes nothing |
| Render.StorePointAt | hand-mirror/main.js:148-150 | three consecutive stores leave the buffer as `StorePoint` describes |
| Render.StoreSegmentAt | hand-mirror/main.js:159-165 | six consecutive stores put both endpoints of one segment |
| Render.UpdatePoints | hand-mirror/main.js:145-153 | for the hand writer and the identical face writer at lines 170-178, the buffer becomes the point writer's result on the old buffer, needsUpdate becomes true, and visibility and colour are unchanged |
| Render.UpdateSkeleton | hand-mirror/main.js:155-168 | the buffer becomes the skeleton writer's result on the old buffer, needsUpdate becomes true, and visibility and colour are unchanged |
| Render.UpdateFaceSkeleton | hand-mirror/main.js:180-194 | without a tessellation table, or without a skeleton entity, nothing changes; otherwise the skeleton writer runs over the tessellation |
| Render.UpdatePart | hand-mirror/main.js:242-253 | the buffer becomes the part writer's result on the old buffer, needsUpdate becomes true, and the part becomes visible |
| Gesture.CountExtended | hand-mirror/main.js:132-138 | the count of extended fingers among the first n finger pairs is at most n, so the counter stays within 0..4 |
| Gesture.DetectGesture | hand-mirror/main.js:124-142 | the counting loop returns the classification of the count of extended fingers |
| Gesture.CountExtendedExtremes | hand-mirror/main.js:133-138 | the count equals n exactly when every one of the first n fingers is extended, and is 0 exactly when none is |
| Gesture.ClassifyOpen | hand-mirror/main.js:126-139 | "open" exactly when all four pairs (8,6), (12,10), (16,14), (20,18) have both landmarks present and the tip above the joint |
| Gesture.ClassifyFist | hand-mirror/main.js:126-140 | "fist" exactly when no pair is extended |
| Gesture.ClassifyOther | hand-mirror/main.js:126-141 | "other" exactly when some but not all pairs are extended |
| Gesture.ShortHandIsFist | hand-mirror/main.js:135-137 | a landmark list too short to hold any fingertip is a fist, because missing landmarks count as not extended |
| Gesture.OpenHandExample | hand-mirror/main.js:124-139 | tips at y = 0.1 and joints at y = 0.5 give "open" |
| Gesture.IndexOnlyIsOther | hand-mirror/main.js:124-141 | only the index finger extended gives "other" |
| Tables.AtMost | hand-mirror/main.js:212 | the filter keeps at most as many entries as it is given, each at most the bound |
| Tables.AtMostKeepsAll | hand-mirror/main.js:212-222 | a filter whose bound no element exceeds removes nothing |
| Tables.ConnectionsShape | hand-mirror/main.js:30-36 | there are 20 connections; each is (0, i+1) at the start of a finger and (i, i+1) otherwise; every endpoint is below 21 |
| Tables.EyeIndicesShape | hand-mirror/main.js:211-213 | the eye table is 33..133 followed by 362..463 (203 entries, the filters remove nothing), and every entry is below 468 |
| Tables.MouthIndicesShape | hand-mirror/main.js:215-216 | the mouth table is 61..291 (231 entries), all below 468 |
| Tables.BrowIndicesShape | hand-mirror/main.js:220-222 | the brow table is 70..105 followed by 336..365 (66 entries), all below 468 |
| Tables.NoseAndEarIndicesShape | hand-mirror/main.js:218-223 | the nose table has 13 distinct entries and the ear table 4, all below 468 |
| Face.RegionsWithinFace | hand-mirror/main.js:211-223 | every index of every region table is a face landmark below 468 |
| Hands.HandsView.WithSide | hand-mirror/main.js:272-273 | replacing one side's pair sets that side and leaves the other side as it was |
| Hands.UnlabelledHandIsRight | hand-mirror/main.js:269-270 | a missing or empty label reads as "Unknown" and goes right; a hand goes left exactly when its label is "Left" |
| Hands.HandScene.constructor | hand-mirror/main.js:14-52 | the four entities and their buffers are newly allocated; both sides start hidden in their own colours, with zeroed 63-cell point buffers and 120-cell skeleton buffers; the connection table is the source's |
| Hands.HandPoints | hand-mirror/main.js:278-290 | a hand's points keep their buffer size and end up shown |
| Hands.HandSkeleton | hand-mirror/main.js:282-283 | a hand's skeleton keeps its buffer size and colour and ends up shown |
| Hands.HandScene.ShowHandOn | hand-mirror/main.js:268-291 | detected hand number index goes to the pair its label chooses; that pair's points and skeleton are refreshed and shown, and the points are coloured by gesture; the other pair is untouched |
| Hands.HandScene.ShowNextOn | hand-mirror/main.js:268-291 | applying hand number index to the state after hands 0 .. index - 1 gives the state after hands 0 .. index |
| Hands.HandScene.ShowAll | hand-mirror/main.js:268-292 | the detected hands are applied in order |
| Hands.HandScene.OnResults | hand-mirror/main.js:257-293 | the handler's new state is the handler function applied to the old state |
| Hands.StartHands | hand-mirror/main.js:14-52 | the scene created at startup accepts the first hands result, after which its view is the handler function applied to the startup view (handler at lines 257-293) |
| Hands.FullHandsFit | hand-mirror/main.js:30-36 | hands with 21 landmarks fit any connection table between hand landmarks |
| Hands.OnHandsNoHands | hand-mirror/main.js:258-266 | with no hands, the four entities are hidden and nothing else changes, buffers included |
| Hands.ShowHandSides | hand-mirror/main.js:272-281 | one hand shows both entities of its side and leaves the other side alone |
| Hands.ShowHandsVisible | hand-mirror/main.js:268-281 | after n hands, a side is visible exactly when it was before or one of those hands is of that side |
| Hands.OnHandsVisible | hand-mirror/main.js:258-292 | after the handler, a side's points and skeleton are visible exactly when some detected hand is of that side, whatever was shown before |
| Hands.ShowHandsOtherSide | hand-mirror/main.js:268-292 | hands of the other side leave a side's pair unchanged |
| Hands.OnHandsAbsentSide | hand-mirror/main.js:258-292 | a side with no detected hand keeps its buffers and colours and is hidden |
| Hands.ShowHandsKeepsShape | hand-mirror/main.js:268-292 | the handler never resizes a buffer and never recolours a skeleton |
| Hands.ShowHandKeepsShape | hand-mirror/main.js:272-291 | one hand resizes no buffer and recolours no skeleton, on either side |
| Hands.OnHandsLastHand | hand-mirror/main.js:268-292 | the last hand of a side decides that side: its points hold exactly that hand's mapped landmarks, coloured green when open, red when a fist and the side's colour otherwise; its skeleton holds exactly that hand's segments |
| Hands.OpenLeftHandScenario | hand-mirror/main.js:257-292 | a single open hand labelled "Left" turns the left points green and shows the left pair, and the right pair stays hidden |
| Face.FaceScene.constructor | hand-mirror/main.js:55-84 | with the part entities of lines 200-208 and 228-232, every entity and buffer is newly allocated; every entity starts hidden in its colour, with a zeroed buffer of 3 cells per point (468 for the cloud, one per index for a region); the skeleton exists exactly when a tessellation is given, with 6 cells per edge |
| Face.FaceScene.HideOn | hand-mirror/main.js:300-305 | the cloud, four of the regions and the skeleton are hidden; the ear region is untouched |
| Face.FaceScene.ShowPointsOn | hand-mirror/main.js:311-320 | the cloud and the five regions are refreshed from one face and shown |
| Face.FaceScene.ShowSkeletonOn | hand-mirror/main.js:322-324 | the skeleton, when it exists, is refreshed from the tessellation and shown |
| Face.FaceScene.ShowOn | hand-mirror/main.js:309-324 | every face entity is refreshed from one face and shown |
| Face.FaceScene.OnResults | hand-mirror/main.js:296-325 | the handler's new state is the handler function applied to the old state |
| Face.StartFace | hand-mirror/main.js:55-84 | without a tessellation table, the scene created at startup accepts the first face result, after which its view is the handler function applied to the startup view (handler at lines 296-325) |
| Face.OnFaceNoFace | hand-mirror/main.js:297-307 | without a face, the cloud, four regions and the skeleton are hidden, the ear region is unchanged and no buffer changes |
| Face.OnFaceShowsAll | hand-mirror/main.js:309-324 | with a face, the cloud, all five regions and the skeleton (when it exists) are visible |
| Face.OnFacePartAt | hand-mirror/main.js:316-320 | after a face, a region cell holds the mapped coordinate of its indexed landmark when that landmark exists, and its stale value otherwise |
| Face.OnFaceCloudAt | hand-mirror/main.js:309-313 | with at least 468 landmarks, every cloud cell holds its landmark's mapped coordinate; landmarks past the buffer are dropped |
| Face.EarsStayVisible | hand-mirror/main.js:300-320 | over a run of frames, the ear region is visible exactly when it was before or some frame had a face, while the cloud follows the last frame only |

## Left out

- The Three.js renderer, scene, camera, materials, render order and point sizes. These are foreign library objects, so each entity is reduced to its buffer, visibility, colour and update flag.
- The animation loop (`animate`, `requestAnimationFrame`). It is external scheduling.
- The detectors: MediaPipe's construction and options, callback registration, the camera stream and its asynchronous `send` calls. These are opaque I/O. The handlers receive a result value instead.
- The resize handler and the WebGL debug logging. They are UI plumbing and console output.
- Float32 rounding in the typed arrays. Coordinates are real numbers.
- The contents of the face tessellation table. It comes from an external script, so it is a parameter, with the precondition that every endpoint indexes a landmark of the face.
- The ordering of the handlers between each other. The camera's frame hook awaits `hands.send` and then `faceMesh.send` (main.js:329-332), and each detector calls its own handler. The two touch disjoint entities, and each is modelled on its own.
- Render.UpdateSkeleton and Render.UpdateFaceSkeleton: require every connection endpoint to index an existing landmark. The source would throw a TypeError instead, and no error path is modelled.
- Hands.HandScene.OnResults: requires every detected hand to carry the 21 hand landmarks, for the same reason.
- Gesture.DetectGesture: returns a datatype, not the strings "open", "fist" and "other".
