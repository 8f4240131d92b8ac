# ARinIOS slope tools — a verified Dafny model

ARinIOS is a Unity AR app for iOS. It measures the slope of the ground along a line that the user marks on screen. This project models its four pieces of discrete logic. The Unity geometry and graphics calls are passed in as uninterpreted functions.

- **CorridorScanner** (`corridor_geometry.dfy`, `corridor_filter.dfy`, `scanner.dfy`, `trackable_id.dfy`)
  - Listens to the AR mesh manager's `meshesChanged` events.
  - For every mesh fragment, it keeps the Floor-classified triangles whose centroid lies in a corridor of width `corridorWidth` around the segment A–B.
  - It keeps one GameObject per fragment's TrackableId, holding the kept triangles coloured by slope.
  - The model has four parts:
    - the name → TrackableId parser;
    - the corridor test;
    - the per-triangle loop, a method proved against a specification function;
    - the `CorridorScanner` class: its dictionary, its scanning flag and its event handler.
- **GreenSlopeRT** (`green_slope_rt.dfy`)
  - The height-bake coroutine is an explicit phase plus `Tick`. `StartCoroutine` runs the coroutine up to its first `yield`, so that part happens inside `StartSlopeAnalysis`.
  - The model covers:
    - the re-entrancy guard;
    - the one-time creation of the bake camera and of the ramp material;
    - the wait for three meshes;
    - the skipping of dead meshes and of meshes without a shared mesh;
    - the slope plane's lifetime: every run instantiates it and `ClearMeshes` destroys it. A bake that must build the ramp material from a destroyed plane throws, which leaves the coroutine dead in the `Crashed` phase with `isRunning` still true;
    - the choice of bake direction;
    - the colour-ramp array loop;
    - the clean-up at the end.
- **GreenSlopePipeline** (`green_slope_pipeline.dfy`)
  - The same coroutine structure.
  - The wait ends when 3 s have passed or there are at least 30 meshes.
  - When the forward direction is nearly vertical, the up vector is replaced by a fallback direction.
  - The nested loops that collect the ROI (region-of-interest) vertices lying in a closed box are proved against a specification function.
  - With fewer than 10 ROI vertices the run aborts. The running flag is cleared on both exit paths.
- **SlopeManager** (`slope_manager.dfy`)
  - The two-tap ruler state machine.
  - The pivot scale maps the raycast distance by clamping it, then applying an affine map.

`basics.dfy` holds the shared vectors over `real` and `Clamp01`. Their algebra lemmas are proof helpers.

The C# code can divide by zero in three places:
- The corridor test with A == B computes 0/0. `Clamp01(NaN)` is NaN and the `<=` comparison is then false. This is modelled: a degenerate corridor contains nothing (`DegenerateCorridorIsEmpty`).
- A one-pixel ramp divides 0 by 0, so that width is excluded.
- The slope colour parameter `slope / maxSlope` divides by zero when `maxSlope` is 0, so the scanner's constructor excludes that setting.

The corridor test clamps the projection parameter to [0, 1], so the region is a capsule rather than a box: past either end it is bounded by a half-ball around the end point. The model proves the capsule shape (`InsideIsCapsule`, `RoundedEndCap`).

The `CorridorScanner` class is parameterised by the function that reads a TrackableId from a mesh name (`extract`). The code as written corresponds to `TrackableIds.ExtractTrackableId`, which reads decimal. The corrected program passes `TrackableIds.ExtractTrackableIdHex` (see Findings). Every property of the scanner holds for either one.

## Model

| member | source | states |
|---|---|---|
| TrackableIds.Split | Assets/Scripts/CorridorScanner.cs:195-197 | `String.Split(char)` gives at least one part, and no part contains the separator |
| TrackableIds.JoinSplit | Assets/Scripts/CorridorScanner.cs:195-197 | splitting loses nothing: joining the parts with the separator gives back the name |
| TrackableIds.SplitJoin | Assets/Scripts/CorridorScanner.cs:195-197 | splitting the join of separator-free parts gives back exactly those parts, empty ones included |
| TrackableIds.ParseDecimalDigits | Assets/Scripts/CorridorScanner.cs:199 | `ulong.TryParse` of a non-empty decimal digit string below 2^64 succeeds, with the string's decimal value |
| TrackableIds.ParseHexDigits | Assets/Scripts/CorridorScanner.cs:199 | the hexadecimal parse of a non-empty hex digit string below 2^64 succeeds, with its base-16 value |
| TrackableIds.IdTokensOfName | Assets/Scripts/CorridorScanner.cs:195-198 | a name "word t1-t2" (no spaces or dashes inside the pieces) yields exactly the two tokens t1 and t2 |
| TrackableIds.NoSpaceIsInvalid | Assets/Scripts/CorridorScanner.cs:195-196 | a name with fewer than two space-separated parts gives `invalidId` |
| TrackableIds.SplitLength | Assets/Scripts/CorridorScanner.cs:195-197 | `Split` yields one more part than the string has separators |
| TrackableIds.SecondPart | Assets/Scripts/CorridorScanner.cs:195-197 | the second space-separated part of "word token rest" is `token`, whatever parts `rest` adds after it |
| TrackableIds.DashCountNotOneIsInvalid | Assets/Scripts/CorridorScanner.cs:195-198 | a second part with no dash or with two or more dashes gives `invalidId` from both extractors, also when more space-separated parts follow |
| TrackableIds.RejectedNames | Assets/Scripts/CorridorScanner.cs:195-198 | "Mesh 1234 extra" and "Mesh 1-2-3" both give `invalidId` |
| TrackableIds.ExtractTrackableId | Assets/Scripts/CorridorScanner.cs:192-202 | a name without a second part split into exactly two tokens gives `invalidId`; when both tokens parse as decimal `ulong.TryParse` values the result is exactly those two values, and any valid result comes from them |
| TrackableIds.ExtractTrackableIdHex | Assets/Scripts/CorridorScanner.cs:192-202 | the corrected extractor: the same rejection of malformed names; when both tokens parse as hexadecimal the result is exactly those two values, and any valid result comes from them |
| TrackableIds.DecimalNameRoundTrip | Assets/Scripts/CorridorScanner.cs:192-202 | "X s1-s2" with decimal s1, s2 below 2^64 yields the identifier (s1, s2) |
| TrackableIds.HexNameRoundTrip | Assets/Scripts/CorridorScanner.cs:192-202 | the corrected extractor reads "X h1-h2" with hex h1, h2 as (h1, h2) |
| TrackableIds.MeshNameRoundTrip | Assets/Scripts/CorridorScanner.cs:192-202 | the corrected extractor recovers every identifier from the name it was written into ("word X16-X16") |
| TrackableIds.CommentExampleTokens | Assets/Scripts/CorridorScanner.cs:194-198 | the name "MeshFilter 1234-abcdef" splits into the tokens "1234" and "abcdef" |
| TrackableIds.CommentExampleRejected | Assets/Scripts/CorridorScanner.cs:194-201 | the as-written decimal extractor returns `invalidId` for "MeshFilter 1234-abcdef" |
| TrackableIds.CommentExampleReadAsHex | Assets/Scripts/CorridorScanner.cs:194-200 | the corrected extractor reads "MeshFilter 1234-abcdef" as (0x1234, 0xabcdef) |
| TrackableIds.DecimalMisreadsHexName | Assets/Scripts/CorridorScanner.cs:199-200 | the name written for the identifier (16, 16) is read by the decimal extractor as (10, 10) |
| CorridorGeometry.InsideCorridor | Assets/Scripts/CorridorScanner.cs:184-190 | a point is inside only when A != B (`InsideIsCapsule` gives the full characterisation) |
| CorridorGeometry.ClampedParam | Assets/Scripts/CorridorScanner.cs:187 | the clamped projection parameter lies in [0, 1] |
| CorridorGeometry.DegenerateIffSamePoint | Assets/Scripts/CorridorScanner.cs:186-187 | AB.sqrMagnitude is 0 exactly when A == B |
| CorridorGeometry.DegenerateCorridorIsEmpty | Assets/Scripts/CorridorScanner.cs:184-190 | with A == B, no point is inside (0/0 is NaN and the comparison fails) |
| CorridorGeometry.NearestPoint | Assets/Scripts/CorridorScanner.cs:186-188 | the clamped projection is the point of segment AB nearest to p |
| CorridorGeometry.InsideIsCapsule | Assets/Scripts/CorridorScanner.cs:184-190 | p is inside exactly when A != B and some point of the segment lies within halfWidth of p |
| CorridorGeometry.SegmentIsInside | Assets/Scripts/CorridorScanner.cs:184-190 | every point of a proper segment is inside its corridor, for any half-width |
| CorridorGeometry.LateralOffset | Assets/Scripts/CorridorScanner.cs:187-189 | a segment point moved by an offset perpendicular to AB is inside exactly when the offset's squared length is at most halfWidth², boundary included |
| CorridorGeometry.HalfWidthSign | Assets/Scripts/CorridorScanner.cs:189 | the test squares halfWidth, so a negative half-width acts like its absolute value |
| CorridorGeometry.PastEnd | Assets/Scripts/CorridorScanner.cs:187-188 | beyond B along AB, the clamped projection is B itself |
| CorridorGeometry.RoundedEndCap | Assets/Scripts/CorridorScanner.cs:184-190 | past the end B, (2.3,0,0) is inside corridor 0→(2,0,0) of half-width 0.5, while (2.3,0.45,0) is outside: the ends are rounded |
| CorridorFilter.SlopeParam | Assets/Scripts/CorridorScanner.cs:124-126 | the colour parameter `Clamp01(slope / maxSlope)` lies in [0, 1] |
| CorridorFilter.FilterMesh | Assets/Scripts/CorridorScanner.cs:104-134 | the triangle loop yields exactly the specification buffers for all faces |
| CorridorFilter.KeptFacesSelected | Assets/Scripts/CorridorScanner.cs:107-121 | a face is kept iff it is Floor and its centroid is inside the corridor; kept faces come out strictly increasing, i.e. in input order |
| CorridorFilter.FilteredShape | Assets/Scripts/CorridorScanner.cs:130-133 | after k kept faces, vertices, colours and indices each have length 3k, and worldTris[j] == j |
| CorridorFilter.FilteredTriangles | Assets/Scripts/CorridorScanner.cs:114-133 | output triangle i is kept face i: its three world corners in order and three copies of its colour, which is white when there is no gradient |
| CorridorFilter.FilteredNonEmptyIff | Assets/Scripts/CorridorScanner.cs:107-141 | the loop emits vertices iff at least one face is kept |
| Scanner.StoreRules | Assets/Scripts/CorridorScanner.cs:141-159 | a non-empty result creates the entry, or replaces the mesh of the existing object; an empty result removes the entry; other identifiers keep theirs |
| Scanner.ProcessedSkips | Assets/Scripts/CorridorScanner.cs:75-90 | an invalid identifier or a missing classification leaves the dictionary unchanged, with no retraction of an existing entry |
| Scanner.ProcessedEntry | Assets/Scripts/CorridorScanner.cs:107-159 | with a valid identifier and a classification, the entry exists afterwards iff some face is kept, and it holds the filtered buffers |
| Scanner.StoreValid | Assets/Scripts/CorridorScanner.cs:141-159 | storing a well-shaped result keeps the dictionary invariant: no `invalidId` key, non-empty well-shaped meshes, one GameObject per identifier |
| Scanner.ProcessedValid | Assets/Scripts/CorridorScanner.cs:72-160 | `ProcessMesh` keeps the dictionary invariant |
| Scanner.ProcessedAllValid | Assets/Scripts/CorridorScanner.cs:67-68 | processing a list of meshes keeps the invariant |
| Scanner.RemovedAllDeletes | Assets/Scripts/CorridorScanner.cs:162-170 | removing a list of meshes deletes exactly their identifiers' entries and nothing else |
| Scanner.RemovedAllValid | Assets/Scripts/CorridorScanner.cs:162-170 | removals keep the invariant |
| Scanner.HandleEventProperties | Assets/Scripts/CorridorScanner.cs:60-70 | a whole event keeps the invariant, and afterwards no removed mesh's identifier has an entry |
| Scanner.CommentExampleMesh | Assets/Scripts/CorridorScanner.cs:75-77 | with the as-written extractor, a mesh named "MeshFilter 1234-abcdef" is skipped and the dictionary is unchanged; the corrected extractor gives it the identifier (0x1234, 0xabcdef) |
| Scanner.CorridorScanner.StartScanning | Assets/Scripts/CorridorScanner.cs:40-46 | stores A and B, sets scanning, adds one subscription, leaves the dictionary alone |
| Scanner.CorridorScanner.Clear | Assets/Scripts/CorridorScanner.cs:51-58 | clears scanning, drops one subscription and empties the dictionary |
| Scanner.CorridorScanner.ProcessMesh | Assets/Scripts/CorridorScanner.cs:72-160 | the new dictionary is the specification's `Processed` of the old one, with the identifier read by the scanner's `extract`, and the invariant holds |
| Scanner.CorridorScanner.RemoveMesh | Assets/Scripts/CorridorScanner.cs:162-170 | deletes only the entry of the identifier `extract` reads from the name, if present |
| Scanner.CorridorScanner.OnMeshesChanged | Assets/Scripts/CorridorScanner.cs:60-70 | ignored unless scanning, whatever the event holds; otherwise added, then updated, then removed, as `HandleEvent` with the scanner's `extract` |
| SlopeBake.DrawListIsFilter | Assets/Scripts/GreenSlopeRT.cs:93-98 | an entry is drawn iff it is in the list, alive and has a shared mesh; never more entries than the list has |
| SlopeBake.DrawListSingleton | Assets/Scripts/GreenSlopeRT.cs:93-98 | a single entry is drawn exactly when it is alive and has a shared mesh |
| SlopeBake.DrawListAppend | Assets/Scripts/GreenSlopeRT.cs:93-98 | the draw list of a list split in two is the two draw lists joined, so every drawable entry is drawn once, in list order |
| SlopeBake.CollectDrawable | Assets/Scripts/GreenSlopeRT.cs:93-98 | the skip loop yields the draw list in list order |
| SlopeBake.RampParamRange | Assets/Scripts/GreenSlopeRT.cs:119 | the sample points `i / (width - 1)` lie in [0, 1], the first is 0 and the last is 1 |
| SlopeBake.RampParamIncreasing | Assets/Scripts/GreenSlopeRT.cs:119 | the sample points strictly increase |
| SlopeBake.BuildRampTexture | Assets/Scripts/GreenSlopeRT.cs:114-124 | exactly `width` colours, entry i is g(i / (width - 1)), so g(0) first and g(1) last |
| SlopeBake.BakeFrame | Assets/Scripts/GreenSlopeRT.cs:51-60 | up is never replaced; forward becomes the camera's forward exactly when it is nearly parallel to up |
| SlopeBake.GreenSlopeRT.StartSlopeAnalysis | Assets/Scripts/GreenSlopeRT.cs:28-84 | a no-op while running; otherwise creates the bake camera only if absent, instantiates a live slope plane and fixes the frame, then either waits (fewer than 3 meshes; ramp and draw list untouched) or bakes |
| SlopeBake.GreenSlopeRT.Tick | Assets/Scripts/GreenSlopeRT.cs:80-84 | nothing happens unless waiting; keeps waiting with no timeout while fewer than 3 meshes exist; once 3 exist it bakes and finishes, except when there is no ramp yet and the plane has been destroyed: then it is stuck (running, manager on, meshes kept, no ramp); the bake camera, the frame and the plane are kept |
| SlopeBake.GreenSlopeRT.Bake | Assets/Scripts/GreenSlopeRT.cs:86-111 | draws the draw list; builds the 256-entry ramp only when there is none; ends not running, manager off, mesh list empty; but when the ramp must be built and the plane is destroyed, `GetComponent` throws and it ends stuck: `Crashed`, still running, manager on, meshes kept, no ramp |
| SlopeBake.GreenSlopeRT.ClearMeshes | Assets/Scripts/GreenSlopeRT.cs:126-131 | empties the mesh list and destroys the slope plane; every other field (running flag, phase, manager flag, bake camera, ramp, frame, draw list) is unchanged |
| SlopeBake.ClearDuringFirstWait | Assets/Scripts/GreenSlopeRT.cs:28-131 | a first run that waits, a `ClearMeshes`, three meshes and a tick leave the component stuck, and a second `StartSlopeAnalysis` then changes nothing |
| SlopePipeline.WaitOverIff | Assets/Scripts/GreenSlopePipeline.cs:39-43 | the wait ends exactly when 3 s have passed or at least 30 meshes exist |
| SlopePipeline.RoiFrame | Assets/Scripts/GreenSlopePipeline.cs:50-53 | forward is never replaced; up becomes the camera's forward exactly when forward is nearly parallel to gravity-up |
| SlopePipeline.RoiOfVerticesSelects | Assets/Scripts/GreenSlopePipeline.cs:73-82 | a point is kept iff it is the world position of a vertex whose local coordinates pass the closed box test; never more points than vertices |
| SlopePipeline.RoiOfVerticesSingleton | Assets/Scripts/GreenSlopePipeline.cs:75-81 | one vertex adds its world position exactly when its local coordinates pass the box test |
| SlopePipeline.RoiOfVerticesAppend | Assets/Scripts/GreenSlopePipeline.cs:73-82 | the ROI of a vertex list split in two is the two ROIs joined, so there is one point per in-box vertex, in vertex order, and that is the count the abort test uses |
| SlopePipeline.RoiOfMeshesSnoc | Assets/Scripts/GreenSlopePipeline.cs:67-83 | a mesh appended to the list appends its own ROI |
| SlopePipeline.RoiOfMeshesAppend | Assets/Scripts/GreenSlopePipeline.cs:67-83 | the ROI of a list is the ROIs of its parts, in mesh-then-vertex order |
| SlopePipeline.RoiOfMeshesSelects | Assets/Scripts/GreenSlopePipeline.cs:67-83 | a point is in the ROI iff it is in the ROI of one of the meshes |
| SlopePipeline.RoiInBox | Assets/Scripts/GreenSlopePipeline.cs:67-83 | every ROI point is a world vertex of some mesh with a shared mesh, and its local coordinates satisfy \|x\| ≤ 0.25 and -len/2 ≤ z ≤ len/2 |
| SlopePipeline.SkippedMeshAddsNothing | Assets/Scripts/GreenSlopePipeline.cs:69-70 | a mesh without a shared mesh contributes nothing, wherever it stands |
| SlopePipeline.CollectRoi | Assets/Scripts/GreenSlopePipeline.cs:63-83 | the nested loops yield exactly the specification ROI |
| SlopePipeline.Verdict | Assets/Scripts/GreenSlopePipeline.cs:86-92 | the run aborts iff fewer than 10 ROI vertices, so exactly 10 proceeds; otherwise the ROI is kept |
| SlopePipeline.GreenSlopePipeline.StartSlopeAnalysis | Assets/Scripts/GreenSlopePipeline.cs:23-43 | a no-op while running; otherwise it runs with the manager on and waits (verdict untouched), or selects at once with the camera's current forward; the mesh list is never changed |
| SlopePipeline.GreenSlopePipeline.Tick | Assets/Scripts/GreenSlopePipeline.cs:39-53 | stays waiting until the wait condition holds, then selects with the camera's forward of that frame; the mesh list is never changed |
| SlopePipeline.GreenSlopePipeline.Select | Assets/Scripts/GreenSlopePipeline.cs:47-139 | records the verdict on the ROI of the meshes, built with the camera's forward at selection time; on both paths, running is false and the manager is off |
| Ruler.PivotScale | Assets/Scripts/SlopeManager.cs:39-42 | the scale lies in [1.325, 1.425]; 1.425 at or below 0.1 m and 1.325 at or beyond 0.5 m |
| Ruler.PivotScaleNonIncreasing | Assets/Scripts/SlopeManager.cs:39-42 | a farther hit never gives a larger scale |
| Ruler.PivotScaleDecreasing | Assets/Scripts/SlopeManager.cs:39-42 | inside [0.1, 0.5] the scale strictly decreases with distance |
| Ruler.Pairs | Assets/Scripts/SlopeManager.cs:67-80 | n taps make n/2 analysis requests, request k being the positions of taps 2k and 2k+1 |
| Ruler.PairsSnoc | Assets/Scripts/SlopeManager.cs:69-78 | an even tap adds no request, and an odd tap adds the pair (previous tap, this tap) |
| Ruler.RequestIsLastTwoTaps | Assets/Scripts/SlopeManager.cs:58-92 | after an even number of taps, the last request is the last two anchors |
| Ruler.SlopeManager.Update | Assets/Scripts/SlopeManager.cs:34-56 | a hit saves its position and sets `PivotScale(distance)`; a miss keeps the saved position and sets the scale to 0.5 |
| Ruler.SlopeManager.OnConfirmLine | Assets/Scripts/SlopeManager.cs:58-65 | requests analysis of (startPos, endPos), changes nothing else, and keeps the anchor invariant |
| Ruler.SlopeManager.MakeRulerObj | Assets/Scripts/SlopeManager.cs:67-80 | the count rises by 1 and one anchor is added at the saved position. An even count sets the start; an odd count sets the end and requests (start, end). It keeps \|points\| == count, and when requests were the pairs of anchors before, they still are |
| Ruler.SlopeManager.MakeStartAnchor | Assets/Scripts/SlopeManager.cs:82-86 | startPos becomes the saved ruler position, and one anchor is added there |
| Ruler.SlopeManager.MakeEndAnchor | Assets/Scripts/SlopeManager.cs:88-92 | endPos becomes the saved ruler position, and one anchor is added there |

## Left out

- Floating point: all geometry is over exact `real`. `float` rounding, infinities and NaN are not modelled, except the NaN of the degenerate corridor described above. The other two divisions by zero are excluded by preconditions.
- Unity calls are parameters. This covers:
  - `Transform.TransformPoint` and `TransformDirection`;
  - `Vector3.Angle`, `normalized` and `Distance`;
  - `Matrix4x4.TRS(...).inverse` and `localToWorldMatrix`;
  - `Gradient.Evaluate`;
  - `Camera.main`'s forward, which is an argument of the call that reads it;
  - `-Physics.gravity.normalized`, an argument of GreenSlopeRT's `StartSlopeAnalysis` and a constant of the GreenSlopePipeline class.
- `Cross`, `Quaternion.LookRotation` and `Quaternion.Lerp` only place objects, and are not modelled.
- Unity object plumbing is not modelled. This covers:
  - GameObject, MeshRenderer and Material creation;
  - `Destroy`;
  - `UpdateMesh` (`RecalculateNormals`);
  - `Instantiate` of the ruler anchors; the slope plane is only a live flag.
  - A corridor GameObject is represented by its creation number and its buffers, and an anchor by its position.
- The ARKit classification fetch is a parameter of type `Id -> Option<seq<Classification>>`. This covers `GetFaceClassifications` under `#if UNITY_IOS` and the `Dispose` of the native array. None means the classification is unavailable, as in an editor build.
- Scanner.CorridorScanner.ProcessMesh: requires exactly the reads the loop makes to be in range. These are a classification for every face, in-range vertex indices for the three corners of each Floor face, and an in-range normal for the first corner of each kept face. It also requires a triangle list whose length is a multiple of three, which Unity's `Mesh` guarantees. Outside these conditions the C# loop reads out of range: the managed arrays throw `IndexOutOfRangeException`, and the `faceCls` NativeArray throws only when collection safety checks are on. Neither path is modelled.
- Scanner.CorridorScanner.constructor: requires `maxSlope != 0`. A zero `maxSlope` gives ±infinity or NaN from `slope / maxSlope` in C#, which is not modelled. The inspector defaults (1.5 for the width and 45 for the maximum slope) are not modelled either; the constructor takes any values.
- Ruler.SlopeManager.OnConfirmLine: it is public, so a direct call adds a request that no pair of taps made. The correspondence between requests and pairs of taps is therefore not part of `Valid` but a separate predicate, `OnlyTapsConfirmed`, which only taps preserve.
- `meshesChanged` delivery: `+=` and `-=` on the multicast delegate are recorded as a subscription count. Events are delivered by calling `OnMeshesChanged` directly, so several subscriptions delivering one event several times is not modelled.
- SlopeBake.BuildRampTexture: requires width != 1. A one-pixel ramp divides 0 by 0 in the source. The `Texture2D` object and its wrap mode are not modelled; the texture is its pixel sequence.
- The GPU height bake of GreenSlopeRT is reduced to the list of meshes handed to `Graphics.DrawMesh`. This leaves out:
  - the render texture and its size `heightTexSize`;
  - camera placement and shader parameters;
  - `GL.Clear`;
  - `bakeCam.Render`;
  - setting `_HeightTex` on every run.
- The slope plane of GreenSlopeRT is a flag, `planeAlive`: set by every run, cleared by `ClearMeshes`. Its position, scale and orientation are not modelled, and neither is the plane of GreenSlopePipeline or its `pose` argument. `Destroy` is treated as immediate, so a destroy and a read in the same frame are not distinguished. The ramp material, once made, is kept after its plane is destroyed, and the model does not record which plane renders it on later runs.
- SlopePipeline.GreenSlopePipeline.Select: every entry of `meshManager.meshes` is a live MeshFilter. GreenSlopePipeline.cs:69 reads `mf.sharedMesh` with no `!mf` guard, so in C# a destroyed entry throws. The coroutine then dies with `isRunning` still true and the mesh manager enabled, and every later `StartSlopeAnalysis` does nothing. That stuck state is not modelled.
- Coroutine scheduling: `yield return null` is a `Tick` call, and `Time.time` is the `now` argument.
- GreenSlopePipeline's `SmallestEigenVector` and the commented-out plane-fit and colouring block are dead code and are not modelled.
- SlopeManager's pivot position and rotation smoothing (`Vector3.Lerp`, `Quaternion.Lerp`) and `_poseSave` are not modelled. The raycast itself is an `Option<Hit>` argument to `Update`.
- Ruler.SlopeManager.MakeRulerObj: `_count` is an unbounded `nat`. The C# `int` would overflow after 2^31 - 1 taps, which is not modelled.
- `greenSlope.StartSlopeAnalysis` from `OnConfirmLine` is recorded as an entry of `requests`, and not linked to the GreenSlopeRT model.
- RulerObjST.cs (label placement and distance text) is not part of this model.
- `ulong.TryParse` is modelled with the invariant-culture default style. A culture whose positive or negative sign is not '+' or '-' is not modelled.

## Findings

| source | as written | input that shows it | evidently intended | confidence | as-written member | corrected member |
|---|---|---|---|---|---|---|
| Assets/Scripts/CorridorScanner.cs:199 | the two ID tokens are read with decimal `ulong.TryParse` | "MeshFilter 1234-abcdef", the source's own example, gives `invalidId`. The name written for the identifier (16, 16), "Mesh 0000000000000010-0000000000000010", is read as (10, 10) | read the tokens as the hexadecimal digits that ARFoundation writes into mesh names (`X16-X16`), giving (0x1234, 0xabcdef) and recovering every identifier from its name | medium, not executed | TrackableIds.ExtractTrackableId (TrackableIds.CommentExampleRejected, TrackableIds.DecimalMisreadsHexName) | TrackableIds.ExtractTrackableIdHex (TrackableIds.MeshNameRoundTrip, TrackableIds.CommentExampleReadAsHex), passed as `extract` to Scanner.CorridorScanner |
