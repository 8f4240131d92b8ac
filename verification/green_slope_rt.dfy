/**
 * GreenSlopeRT: bakes the heights of the scanned meshes around the segment
 * A-B into a render texture and shows them on a plane through a colour ramp.
 *
 * The coroutine `Process` runs synchronously from StartSlopeAnalysis up to
 * its first `yield`; here that is `StartSlopeAnalysis`, which leaves the
 * component in phase `Waiting` when fewer than three meshes exist. Each later
 * frame resumes the coroutine: that is `Tick`. The GPU bake itself (render
 * texture, camera placement, shaders, Graphics.DrawMesh) is reduced to the
 * list of meshes that would be drawn.
 */
module SlopeBake {
  import opened Basics

  /**
   * An entry of meshManager.meshes: its MeshFilter's instance id, whether it
   * is destroyed (`!mf` in C#) or alive, and whether it has a shared mesh.
   */
  datatype MeshSlot = MeshSlot(instance: nat, alive: bool, hasSharedMesh: bool)

  /**
   * Where the coroutine is: not started or finished, waiting for meshes, or
   * dead from an exception with `isRunning` still set.
   */
  datatype Phase = Idle | Waiting | Crashed

  /** The meshes the bake loop does not skip. */
  predicate Drawable(m: MeshSlot)
  {
    m.alive && m.hasSharedMesh
  }

  /** The meshes handed to Graphics.DrawMesh, in list order. */
  function DrawList(ms: seq<MeshSlot>): seq<MeshSlot>
  {
    if |ms| == 0 then []
    else DrawList(ms[..|ms| - 1]) + (if Drawable(ms[|ms| - 1]) then [ms[|ms| - 1]] else [])
  }

  /** The draw list holds drawable entries of the list only, and all of them. */
  lemma {:induction false} DrawListIsFilter(ms: seq<MeshSlot>)
    ensures |DrawList(ms)| <= |ms|
    ensures forall m :: m in DrawList(ms) <==> m in ms && Drawable(m)
    ensures forall i :: 0 <= i < |DrawList(ms)| ==> Drawable(DrawList(ms)[i])
  {
    if |ms| > 0 {
      DrawListIsFilter(ms[..|ms| - 1]);
      assert ms == ms[..|ms| - 1] + [ms[|ms| - 1]];
    }
  }

  /** One entry is drawn exactly when it is drawable. */
  lemma DrawListSingleton(m: MeshSlot)
    ensures DrawList([m]) == if Drawable(m) then [m] else []
  {
    assert [m][..0] == [];
  }

  /** The draw list of a list split in two is the two draw lists joined: each entry is drawn once, in list order. */
  lemma {:induction false} DrawListAppend(ms: seq<MeshSlot>, ns: seq<MeshSlot>)
    ensures DrawList(ms + ns) == DrawList(ms) + DrawList(ns)
    decreases |ns|
  {
    if |ns| == 0 {
      assert ms + ns == ms;
    } else {
      var init := ns[..|ns| - 1];
      assert (ms + ns)[..|ms + ns| - 1] == ms + init;
      assert (ms + ns)[|ms + ns| - 1] == ns[|ns| - 1];
      DrawListAppend(ms, init);
    }
  }

  /** The foreach over meshManager.meshes that skips `!mf || !mf.sharedMesh`. */
  method CollectDrawable(ms: seq<MeshSlot>) returns (drawn: seq<MeshSlot>)
    ensures drawn == DrawList(ms)
  {
    drawn := [];
    for i := 0 to |ms|
      invariant drawn == DrawList(ms[..i])
    {
      assert ms[..i + 1][..i] == ms[..i];
      if !ms[i].alive || !ms[i].hasSharedMesh {
        continue;
      }
      drawn := drawn + [ms[i]];
    }
    assert ms[..|ms|] == ms;
  }

  /** The ramp's sample point `i / (float)(width - 1f)`. */
  function RampParam(i: nat, width: nat): real
    requires width != 1
  {
    i as real / (width - 1) as real
  }

  lemma DivBelow(a: real, b: real, d: real)
    requires d > 0.0 && a < b
    ensures a / d < b / d
  {
    assert b / d - a / d == (b - a) / d;
  }

  /** The samples run from exactly 0 to exactly 1. */
  lemma RampParamRange(i: nat, width: nat)
    requires 2 <= width && i < width
    ensures 0.0 <= RampParam(i, width) <= 1.0
    ensures i == 0 ==> RampParam(i, width) == 0.0
    ensures i == width - 1 ==> RampParam(i, width) == 1.0
  {
    var d := (width - 1) as real;
    if i < width - 1 {
      DivBelow(i as real, d, d);
    } else {
      assert i as real == d;
      assert RampParam(i, width) == d / d == 1.0;
    }
  }

  /** The samples strictly increase along the ramp. */
  lemma RampParamIncreasing(i: nat, j: nat, width: nat)
    requires i < j < width
    ensures RampParam(i, width) < RampParam(j, width)
  {
    DivBelow(i as real, j as real, (width - 1) as real);
  }

  /**
   * BuildRampTexture: `width` colours, entry i the gradient at i / (width - 1),
   * so the first is the gradient at 0 and the last the gradient at 1.
   * A one-pixel ramp divides 0 by 0 in the source and is excluded.
   */
  method BuildRampTexture(g: real -> Color, width: nat) returns (pixels: seq<Color>)
    requires width != 1
    ensures |pixels| == width
    ensures forall i :: 0 <= i < width ==> pixels[i] == g(RampParam(i, width))
    ensures width >= 2 ==> pixels[0] == g(0.0) && pixels[width - 1] == g(1.0)
  {
    var c := new Color[width];
    for i := 0 to width
      invariant forall k :: 0 <= k < i ==> c[k] == g(RampParam(k, width))
    {
      c[i] := g(RampParam(i, width));
    }
    pixels := c[..];
    if width >= 2 {
      RampParamRange(0, width);
      RampParamRange(width - 1, width);
    }
  }

  const RampWidth: nat := 256

  /**
   * The bake frame: forward is the normalised A-B direction unless it is
   * nearly parallel to up, in which case the camera's forward replaces it;
   * up is never replaced. `normalize` is Vector3.normalized.
   */
  function BakeFrame(a: Vec3, b: Vec3, up: Vec3, cameraForward: Vec3, normalize: Vec3 -> Vec3): (f: Frame)
    ensures f.up == up
    ensures f.forward == if NearParallel(normalize(Sub(b, a)), up) then normalize(cameraForward) else normalize(Sub(b, a))
  {
    var forward := normalize(Sub(b, a));
    if Abs(Dot(forward, up)) > 0.99 then Frame(normalize(cameraForward), up) else Frame(forward, up)
  }

  class GreenSlopeRT {
    /** heightGradient.Evaluate. */
    const heightGradient: real -> Color

    var isRunning: bool
    var phase: Phase
    var meshManagerEnabled: bool
    /** meshManager.meshes. */
    var meshes: seq<MeshSlot>

    /** bakeCam, heightRT and encodeMat, created together. */
    var hasBakeCam: bool
    ghost var bakeCamCreations: nat

    /** rampMat, as the ramp texture set on it; None while rampMat is null. */
    var rampTexture: Option<seq<Color>>
    ghost var rampCreations: nat

    /** The bake frame of the current run and the meshes drawn by the last bake. */
    var frame: Frame
    var drawn: seq<MeshSlot>

    /** slopePlane: instantiated by every run, destroyed by ClearMeshes. */
    var planeAlive: bool

    ghost predicate Valid()
      reads this
    {
      && (isRunning <==> phase != Idle)
      && bakeCamCreations == (if hasBakeCam then 1 else 0)
      && rampCreations == (if rampTexture.Some? then 1 else 0)
      && (isRunning ==> hasBakeCam && meshManagerEnabled)
      && (phase == Crashed ==> rampTexture.None?)
      && (rampTexture.Some? ==>
            |rampTexture.value| == RampWidth &&
            forall i :: 0 <= i < RampWidth ==> rampTexture.value[i] == heightGradient(RampParam(i, RampWidth)))
    }

    constructor (heightGradient: real -> Color)
      ensures Valid() && !isRunning && phase == Idle && !meshManagerEnabled && meshes == []
      ensures !hasBakeCam && rampTexture == None && drawn == [] && !planeAlive
      ensures this.heightGradient == heightGradient
    {
      this.heightGradient := heightGradient;
      isRunning := false;
      phase := Idle;
      meshManagerEnabled := false;
      meshes := [];
      hasBakeCam := false;
      bakeCamCreations := 0;
      rampTexture := None;
      rampCreations := 0;
      frame := Frame(Zero, Zero);
      drawn := [];
      planeAlive := false;
    }

    /** The mesh manager's list changes (meshes arrive or are destroyed). */
    method SetMeshes(ms: seq<MeshSlot>)
      requires Valid()
      modifies this
      ensures Valid() && meshes == ms
      ensures isRunning == old(isRunning) && phase == old(phase) && meshManagerEnabled == old(meshManagerEnabled)
      ensures hasBakeCam == old(hasBakeCam) && bakeCamCreations == old(bakeCamCreations)
      ensures rampTexture == old(rampTexture) && rampCreations == old(rampCreations)
      ensures frame == old(frame) && drawn == old(drawn) && planeAlive == old(planeAlive)
    {
      meshes := ms;
    }

    /**
     * Starts the coroutine unless one is running (or a crashed one left the
     * flag set). A started run makes the bake camera only if there is none
     * yet, fixes the bake direction, instantiates a slope plane, and either
     * waits for meshes or, with three or more already present, bakes at once.
     */
    method StartSlopeAnalysis(a: Vec3, b: Vec3, up: Vec3, cameraForward: Vec3, normalize: Vec3 -> Vec3)
      requires Valid()
      modifies this
      ensures Valid()
      ensures old(isRunning) ==> unchanged(this)
      ensures !old(isRunning) ==> hasBakeCam && bakeCamCreations == old(bakeCamCreations) + (if old(hasBakeCam) then 0 else 1)
      ensures !old(isRunning) ==> frame == BakeFrame(a, b, up, cameraForward, normalize) && planeAlive
      ensures !old(isRunning) && |old(meshes)| < 3 ==>
                isRunning && phase == Waiting && meshManagerEnabled && meshes == old(meshes) &&
                rampTexture == old(rampTexture) && rampCreations == old(rampCreations) && drawn == old(drawn)
      ensures !old(isRunning) && |old(meshes)| >= 3 ==> Finished(old(meshes), old(rampTexture), old(rampCreations))
    {
      if !isRunning {
        isRunning := true;
        meshManagerEnabled := true;
        if !hasBakeCam {
          hasBakeCam := true;
          bakeCamCreations := bakeCamCreations + 1;
        }
        frame := BakeFrame(a, b, up, cameraForward, normalize);
        planeAlive := true;
        phase := Waiting;
        if |meshes| >= 3 {
          Bake();
        }
      }
    }

    /**
     * The bake throws at `slopePlane.GetComponent` when the ramp material
     * still has to be taken from a plane that ClearMeshes destroyed.
     */
    static predicate BakeThrows(ramp: Option<seq<Color>>, planeAlive: bool)
    {
      ramp.None? && !planeAlive
    }

    /**
     * One frame's resumption of the coroutine: keep waiting while fewer than
     * three meshes exist, then bake. A finished or crashed coroutine is not resumed.
     */
    method Tick()
      requires Valid()
      modifies this
      ensures Valid()
      ensures old(phase) != Waiting ==> unchanged(this)
      ensures old(phase) == Waiting && |old(meshes)| < 3 ==> unchanged(this)
      ensures old(phase) == Waiting && |old(meshes)| >= 3 && !BakeThrows(old(rampTexture), old(planeAlive)) ==>
                Finished(old(meshes), old(rampTexture), old(rampCreations))
      ensures old(phase) == Waiting && |old(meshes)| >= 3 && BakeThrows(old(rampTexture), old(planeAlive)) ==>
                Stuck(old(meshes))
      ensures hasBakeCam == old(hasBakeCam) && bakeCamCreations == old(bakeCamCreations)
      ensures frame == old(frame) && planeAlive == old(planeAlive)
    {
      if phase == Waiting && |meshes| >= 3 {
        Bake();
      }
    }

    /** The state after the bake: meshes drawn, ramp material made once, manager off, list emptied. */
    ghost predicate Finished(before: seq<MeshSlot>, oldRamp: Option<seq<Color>>, oldRampCreations: nat)
      reads this
    {
      && drawn == DrawList(before)
      && !isRunning && phase == Idle && !meshManagerEnabled && meshes == []
      && (oldRamp.Some? ==> rampTexture == oldRamp && rampCreations == oldRampCreations)
      && (oldRamp.None? ==> rampTexture.Some? && rampCreations == oldRampCreations + 1)
    }

    /**
     * The state the exception leaves: the meshes were drawn, but the running
     * flag, the mesh manager and the mesh list stay as they were and no ramp
     * material exists. Every later StartSlopeAnalysis is a no-op.
     */
    ghost predicate Stuck(before: seq<MeshSlot>)
      reads this
    {
      && drawn == DrawList(before)
      && isRunning && phase == Crashed && meshManagerEnabled && meshes == before
      && rampTexture.None? && rampCreations == 0
    }

    /** The part of the coroutine after the wait loop. */
    method Bake()
      requires Valid() && phase == Waiting
      modifies this
      ensures Valid()
      ensures !BakeThrows(old(rampTexture), old(planeAlive)) ==> Finished(old(meshes), old(rampTexture), old(rampCreations))
      ensures BakeThrows(old(rampTexture), old(planeAlive)) ==> Stuck(old(meshes))
      ensures hasBakeCam == old(hasBakeCam) && bakeCamCreations == old(bakeCamCreations)
      ensures frame == old(frame) && planeAlive == old(planeAlive)
    {
      drawn := CollectDrawable(meshes);
      if rampTexture.None? {
        if !planeAlive {
          phase := Crashed;
          return;
        }
        var ramp := BuildRampTexture(heightGradient, RampWidth);
        rampTexture := Some(ramp);
        rampCreations := rampCreations + 1;
      }
      meshManagerEnabled := false;
      isRunning := false;
      phase := Idle;
      meshes := [];
    }

    /** ClearMeshes: empties the mesh manager's list and destroys the slope plane. */
    method ClearMeshes()
      requires Valid()
      modifies this
      ensures Valid() && meshes == [] && !planeAlive
      ensures isRunning == old(isRunning) && phase == old(phase) && meshManagerEnabled == old(meshManagerEnabled)
      ensures hasBakeCam == old(hasBakeCam) && bakeCamCreations == old(bakeCamCreations)
      ensures rampTexture == old(rampTexture) && rampCreations == old(rampCreations)
      ensures frame == old(frame) && drawn == old(drawn)
    {
      meshes := [];
      planeAlive := false;
    }
  }

  /**
   * Clearing during the first run's wait: once three meshes arrive the bake
   * draws them and then dies, and a second StartSlopeAnalysis does nothing.
   */
  method ClearDuringFirstWait(g: real -> Color, a: Vec3, b: Vec3, up: Vec3, cameraForward: Vec3,
                              normalize: Vec3 -> Vec3, ms: seq<MeshSlot>) returns (rt: GreenSlopeRT)
    requires |ms| >= 3
    ensures rt.Valid() && rt.Stuck(ms)
  {
    rt := new GreenSlopeRT(g);
    rt.StartSlopeAnalysis(a, b, up, cameraForward, normalize);
    rt.ClearMeshes();
    rt.SetMeshes(ms);
    rt.Tick();
    rt.StartSlopeAnalysis(b, a, up, cameraForward, normalize);
  }
}
