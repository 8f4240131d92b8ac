/**
 * GreenSlopePipeline: collects the scanned vertices that lie in a box
 * around the segment A-B (the region of interest, ROI) and gives up when
 * fewer than ten are found.
 *
 * As in SlopeBake, the coroutine runs synchronously up to its first yield in
 * `StartSlopeAnalysis`, and each later frame is a `Tick(now, cameraForward)`;
 * `now` is Time.time and `cameraForward` is Camera.main's forward in that
 * frame, which the ROI step reads when the wait ends. Matrix4x4.TRS(...).inverse,
 * Vector3.Distance and Vector3.normalized are Unity calls and are parameters here.
 */
module SlopePipeline {
  import opened Basics

  const HalfWidth: real := 0.25
  const MaxWait: real := 3.0
  const EnoughMeshes: nat := 30
  const MinRoiVertices: nat := 10

  /** A live entry of meshManager.meshes: its shared mesh's vertices, if any, and localToWorldMatrix. */
  datatype ScanMesh = ScanMesh(sharedMesh: Option<seq<Vec3>>, toWorld: Vec3 -> Vec3)

  datatype Phase = Idle | Waiting(tStart: real, a: Vec3, b: Vec3)

  datatype Outcome = Aborted(roiCount: nat) | Analysed(roi: seq<Vec3>)

  /** The ROI geometry: its length and the inverse of the ROI frame's matrix. */
  datatype Roi = Roi(length: real, toLocal: Vec3 -> Vec3)

  /** The wait loop's condition, negated: the loop ends once 3 s have passed or 30 meshes exist. */
  predicate WaitOver(elapsed: real, meshCount: nat)
  {
    !(elapsed < MaxWait && meshCount < EnoughMeshes)
  }

  lemma WaitOverIff(elapsed: real, meshCount: nat)
    ensures WaitOver(elapsed, meshCount) <==> elapsed >= 3.0 || meshCount >= 30
  {
  }

  /**
   * The ROI frame: forward is always the normalised A-B direction; up is
   * the gravity up unless forward is nearly parallel to it, in which case the
   * camera's forward replaces up (forward is kept).
   */
  function RoiFrame(a: Vec3, b: Vec3, gravityUp: Vec3, cameraForward: Vec3, normalize: Vec3 -> Vec3): (f: Frame)
    ensures f.forward == normalize(Sub(b, a))
    ensures f.up == if NearParallel(normalize(Sub(b, a)), gravityUp) then normalize(cameraForward) else gravityUp
  {
    var forward := normalize(Sub(b, a));
    var up := gravityUp;
    if Abs(Dot(forward, up)) > 0.99 then Frame(forward, normalize(cameraForward)) else Frame(forward, up)
  }

  /** The closed box test on ROI-frame coordinates: |x| <= 0.25 and -length/2 <= z <= length/2. */
  predicate InBox(lv: Vec3, length: real)
  {
    Abs(lv.x) <= HalfWidth && lv.z >= -length * 0.5 && lv.z <= length * 0.5
  }

  /** The world positions of a vertex list that fall in the box, in vertex order. */
  function RoiOfVertices(vs: seq<Vec3>, toWorld: Vec3 -> Vec3, roi: Roi): seq<Vec3>
  {
    if |vs| == 0 then []
    else
      var wv := toWorld(vs[|vs| - 1]);
      RoiOfVertices(vs[..|vs| - 1], toWorld, roi) + (if InBox(roi.toLocal(wv), roi.length) then [wv] else [])
  }

  function RoiOfMesh(m: ScanMesh, roi: Roi): seq<Vec3>
  {
    match m.sharedMesh
    case None => []
    case Some(vs) => RoiOfVertices(vs, m.toWorld, roi)
  }

  /** roiVerts after the nested loops over the first meshes: mesh by mesh, vertex by vertex. */
  function RoiOfMeshes(ms: seq<ScanMesh>, roi: Roi): seq<Vec3>
  {
    if |ms| == 0 then [] else RoiOfMeshes(ms[..|ms| - 1], roi) + RoiOfMesh(ms[|ms| - 1], roi)
  }

  /**
   * Every kept point is a world vertex in the box, and every world vertex
   * in the box is kept; there are never more points than vertices.
   */
  lemma {:induction false} RoiOfVerticesSelects(vs: seq<Vec3>, toWorld: Vec3 -> Vec3, roi: Roi)
    ensures |RoiOfVertices(vs, toWorld, roi)| <= |vs|
    ensures forall w :: w in RoiOfVertices(vs, toWorld, roi) <==>
              exists i :: 0 <= i < |vs| && w == toWorld(vs[i]) && InBox(roi.toLocal(w), roi.length)
  {
    if |vs| > 0 {
      var init := vs[..|vs| - 1];
      RoiOfVerticesSelects(init, toWorld, roi);
      forall w | (exists i :: 0 <= i < |vs| && w == toWorld(vs[i]) && InBox(roi.toLocal(w), roi.length))
        ensures w in RoiOfVertices(vs, toWorld, roi)
      {
        var i :| 0 <= i < |vs| && w == toWorld(vs[i]) && InBox(roi.toLocal(w), roi.length);
        if i < |vs| - 1 {
          assert init[i] == vs[i];
        }
      }
      forall w | w in RoiOfVertices(init, toWorld, roi)
        ensures exists i :: 0 <= i < |vs| && w == toWorld(vs[i]) && InBox(roi.toLocal(w), roi.length)
      {
        var i :| 0 <= i < |init| && w == toWorld(init[i]) && InBox(roi.toLocal(w), roi.length);
        assert vs[i] == init[i];
      }
    }
  }

  /** One vertex adds its world position exactly when that position is in the box. */
  lemma RoiOfVerticesSingleton(v: Vec3, toWorld: Vec3 -> Vec3, roi: Roi)
    ensures RoiOfVertices([v], toWorld, roi) ==
              if InBox(roi.toLocal(toWorld(v)), roi.length) then [toWorld(v)] else []
  {
    assert [v][..0] == [];
  }

  /** The ROI of a vertex list split in two is the two ROIs joined: one point per in-box vertex, in vertex order. */
  lemma {:induction false} RoiOfVerticesAppend(vs: seq<Vec3>, ws: seq<Vec3>, toWorld: Vec3 -> Vec3, roi: Roi)
    ensures RoiOfVertices(vs + ws, toWorld, roi) == RoiOfVertices(vs, toWorld, roi) + RoiOfVertices(ws, toWorld, roi)
    decreases |ws|
  {
    if |ws| == 0 {
      assert vs + ws == vs;
    } else {
      var init := ws[..|ws| - 1];
      assert (vs + ws)[..|vs + ws| - 1] == vs + init;
      assert (vs + ws)[|vs + ws| - 1] == ws[|ws| - 1];
      RoiOfVerticesAppend(vs, init, toWorld, roi);
    }
  }

  /** A mesh appended to the list appends its own ROI. */
  lemma RoiOfMeshesSnoc(ms: seq<ScanMesh>, m: ScanMesh, roi: Roi)
    ensures RoiOfMeshes(ms + [m], roi) == RoiOfMeshes(ms, roi) + RoiOfMesh(m, roi)
  {
    assert (ms + [m])[..|ms|] == ms;
  }

  /** The ROI of a mesh list is the ROIs of its meshes, in list order; a list split in two gives the two parts joined. */
  lemma {:induction false} RoiOfMeshesAppend(ms: seq<ScanMesh>, ns: seq<ScanMesh>, roi: Roi)
    ensures RoiOfMeshes(ms + ns, roi) == RoiOfMeshes(ms, roi) + RoiOfMeshes(ns, roi)
    decreases |ns|
  {
    if |ns| == 0 {
      assert ms + ns == ms;
    } else {
      var init, last := ns[..|ns| - 1], ns[|ns| - 1];
      assert ms + ns == (ms + init) + [last];
      assert init + [last] == ns;
      RoiOfMeshesSnoc(ms + init, last, roi);
      RoiOfMeshesAppend(ms, init, roi);
      RoiOfMeshesSnoc(init, last, roi);
      ConcatAssociative(RoiOfMeshes(ms, roi), RoiOfMeshes(init, roi), RoiOfMesh(last, roi));
    }
  }

  /** A point is in the ROI of a mesh list exactly when it is in the ROI of one of its meshes. */
  lemma {:induction false} RoiOfMeshesSelects(ms: seq<ScanMesh>, roi: Roi)
    ensures forall w :: w in RoiOfMeshes(ms, roi) <==> exists i :: 0 <= i < |ms| && w in RoiOfMesh(ms[i], roi)
  {
    if |ms| > 0 {
      var init := ms[..|ms| - 1];
      RoiOfMeshesSelects(init, roi);
      forall w | (exists i :: 0 <= i < |ms| && w in RoiOfMesh(ms[i], roi))
        ensures w in RoiOfMeshes(ms, roi)
      {
        var i :| 0 <= i < |ms| && w in RoiOfMesh(ms[i], roi);
        if i < |ms| - 1 {
          assert init[i] == ms[i];
        }
      }
      forall w | w in RoiOfMeshes(init, roi)
        ensures exists i :: 0 <= i < |ms| && w in RoiOfMesh(ms[i], roi)
      {
        var i :| 0 <= i < |init| && w in RoiOfMesh(init[i], roi);
        assert ms[i] == init[i];
      }
    }
  }

  /** Every ROI point is a world vertex whose ROI-frame coordinates pass the closed box test. */
  lemma RoiInBox(ms: seq<ScanMesh>, roi: Roi, w: Vec3)
    requires w in RoiOfMeshes(ms, roi)
    ensures InBox(roi.toLocal(w), roi.length)
    ensures exists i, j :: 0 <= i < |ms| && ms[i].sharedMesh.Some? && 0 <= j < |ms[i].sharedMesh.value| &&
              w == ms[i].toWorld(ms[i].sharedMesh.value[j])
  {
    RoiOfMeshesSelects(ms, roi);
    var i :| 0 <= i < |ms| && w in RoiOfMesh(ms[i], roi);
    var vs := ms[i].sharedMesh.value;
    RoiOfVerticesSelects(vs, ms[i].toWorld, roi);
  }

  /** A mesh without a shared mesh adds nothing, wherever it stands in the list. */
  lemma SkippedMeshAddsNothing(ms: seq<ScanMesh>, m: ScanMesh, ns: seq<ScanMesh>, roi: Roi)
    requires m.sharedMesh.None?
    ensures RoiOfMeshes(ms + [m] + ns, roi) == RoiOfMeshes(ms + ns, roi)
  {
    RoiOfMeshesAppend(ms + [m], ns, roi);
    RoiOfMeshesAppend(ms, ns, roi);
    assert (ms + [m])[..|ms + [m]| - 1] == ms;
  }

  /** The nested foreach loops of step 2. */
  method CollectRoi(ms: seq<ScanMesh>, roi: Roi) returns (roiVerts: seq<Vec3>)
    ensures roiVerts == RoiOfMeshes(ms, roi)
  {
    roiVerts := [];
    for i := 0 to |ms|
      invariant roiVerts == RoiOfMeshes(ms[..i], roi)
    {
      assert ms[..i + 1][..i] == ms[..i];
      var mesh := ms[i].sharedMesh;
      if mesh.None? {
        continue;
      }
      var vs := mesh.value;
      ghost var before := roiVerts;
      for j := 0 to |vs|
        invariant roiVerts == before + RoiOfVertices(vs[..j], ms[i].toWorld, roi)
      {
        assert vs[..j + 1][..j] == vs[..j];
        var wv := ms[i].toWorld(vs[j]);
        var lv := roi.toLocal(wv);
        if Abs(lv.x) <= HalfWidth && lv.z >= -roi.length * 0.5 && lv.z <= roi.length * 0.5 {
          roiVerts := roiVerts + [wv];
        }
      }
      assert vs[..|vs|] == vs;
    }
    assert ms[..|ms|] == ms;
  }

  /** Step 1 and step 2 of the pipeline, from the end points and the environment. */
  function RoiFor(a: Vec3, b: Vec3, gravityUp: Vec3, cameraForward: Vec3, normalize: Vec3 -> Vec3,
                  distance: (Vec3, Vec3) -> real, inverseFrame: (Vec3, Frame) -> (Vec3 -> Vec3)): Roi
  {
    var frame := RoiFrame(a, b, gravityUp, cameraForward, normalize);
    var center := Scale(0.5, Add(a, b));
    Roi(distance(a, b), inverseFrame(center, frame))
  }

  /** The run's verdict: fewer than ten ROI vertices abort it; ten or more go on. */
  function Verdict(roiVerts: seq<Vec3>): (o: Outcome)
    ensures o.Aborted? <==> |roiVerts| < 10
    ensures o.Analysed? ==> o.roi == roiVerts
    ensures o.Aborted? ==> o.roiCount == |roiVerts|
  {
    if |roiVerts| < MinRoiVertices then Aborted(|roiVerts|) else Analysed(roiVerts)
  }

  class GreenSlopePipeline {
    /** -Physics.gravity.normalized (the project never changes gravity) and the Unity geometry calls. */
    const gravityUp: Vec3
    const normalize: Vec3 -> Vec3
    const distance: (Vec3, Vec3) -> real
    const inverseFrame: (Vec3, Frame) -> (Vec3 -> Vec3)

    var isRunning: bool
    var phase: Phase
    var meshManagerEnabled: bool
    var meshes: seq<ScanMesh>
    /** What the last finished run concluded. */
    var outcome: Option<Outcome>

    ghost predicate Valid()
      reads this
    {
      (isRunning <==> phase.Waiting?) && (isRunning ==> meshManagerEnabled)
    }

    constructor (gravityUp: Vec3, normalize: Vec3 -> Vec3,
                 distance: (Vec3, Vec3) -> real, inverseFrame: (Vec3, Frame) -> (Vec3 -> Vec3))
      ensures Valid() && !isRunning && !meshManagerEnabled && phase == Idle && meshes == [] && outcome == None
      ensures this.gravityUp == gravityUp && this.normalize == normalize
      ensures this.distance == distance && this.inverseFrame == inverseFrame
    {
      this.gravityUp := gravityUp;
      this.normalize := normalize;
      this.distance := distance;
      this.inverseFrame := inverseFrame;
      isRunning := false;
      phase := Idle;
      meshManagerEnabled := false;
      meshes := [];
      outcome := None;
    }

    method SetMeshes(ms: seq<ScanMesh>)
      requires Valid()
      modifies this
      ensures Valid() && meshes == ms
      ensures isRunning == old(isRunning) && phase == old(phase) && outcome == old(outcome)
      ensures meshManagerEnabled == old(meshManagerEnabled)
    {
      meshes := ms;
    }

    /**
     * The state a run leaves: the verdict on the ROI built with the camera's
     * forward of the frame the wait ended in, the mesh manager off and the
     * running flag down.
     */
    ghost predicate Finished(a: Vec3, b: Vec3, ms: seq<ScanMesh>, cameraForward: Vec3)
      reads this
    {
      && outcome == Some(Verdict(RoiOfMeshes(ms, RoiFor(a, b, gravityUp, cameraForward, normalize, distance, inverseFrame))))
      && !isRunning && !meshManagerEnabled && phase == Idle
    }

    /** Starts the coroutine unless one is running; it waits until WaitOver holds. */
    method StartSlopeAnalysis(a: Vec3, b: Vec3, now: real, cameraForward: Vec3)
      requires Valid()
      modifies this
      ensures Valid()
      ensures meshes == old(meshes)
      ensures old(isRunning) ==> unchanged(this)
      ensures !old(isRunning) && !WaitOver(0.0, |old(meshes)|) ==>
                isRunning && meshManagerEnabled && phase == Waiting(now, a, b) && outcome == old(outcome)
      ensures !old(isRunning) && WaitOver(0.0, |old(meshes)|) ==> Finished(a, b, old(meshes), cameraForward)
    {
      if !isRunning {
        isRunning := true;
        meshManagerEnabled := true;
        phase := Waiting(now, a, b);
        if WaitOver(now - now, |meshes|) {
          Select(cameraForward);
        }
      }
    }

    /** One frame's resumption at time `now`, with the camera facing `cameraForward`. */
    method Tick(now: real, cameraForward: Vec3)
      requires Valid()
      modifies this
      ensures Valid()
      ensures meshes == old(meshes)
      ensures old(phase) == Idle ==> unchanged(this)
      ensures old(phase).Waiting? && !WaitOver(now - old(phase).tStart, |old(meshes)|) ==> unchanged(this)
      ensures old(phase).Waiting? && WaitOver(now - old(phase).tStart, |old(meshes)|) ==>
                Finished(old(phase).a, old(phase).b, old(meshes), cameraForward)
    {
      if phase.Waiting? && WaitOver(now - phase.tStart, |meshes|) {
        Select(cameraForward);
      }
    }

    /** Everything after the wait loop: the ROI, the count check and the clean-up on both paths. */
    method Select(cameraForward: Vec3)
      requires Valid() && phase.Waiting?
      modifies this
      ensures Valid()
      ensures Finished(old(phase).a, old(phase).b, old(meshes), cameraForward)
      ensures meshes == old(meshes)
    {
      var a, b := phase.a, phase.b;
      var roi := RoiFor(a, b, gravityUp, cameraForward, normalize, distance, inverseFrame);
      var roiVerts := CollectRoi(meshes, roi);
      if |roiVerts| < MinRoiVertices {
        outcome := Some(Aborted(|roiVerts|));
        meshManagerEnabled := false;
        isRunning := false;
        phase := Idle;
        return;
      }
      outcome := Some(Analysed(roiVerts));
      meshManagerEnabled := false;
      isRunning := false;
      phase := Idle;
    }
  }
}
