/**
 * The per-triangle loop of CorridorScanner.ProcessMesh.
 *
 * Each face (three consecutive entries of the triangle list) is kept when
 * its ARKit classification is Floor and the centroid of its three world
 * corners lies inside the corridor. A kept face contributes three fresh
 * world vertices, three copies of one slope colour and the indices
 * base, base+1, base+2. The faces are visited in order, so the output
 * lists the kept faces in their input order.
 *
 * The world transform, the angle between a normal and Vector3.up, and the
 * colour gradient are Unity calls; they are parameters here.
 */
module CorridorFilter {
  import opened Basics
  import opened CorridorGeometry

  /** ARMeshClassification; `Unclassified` is the enum's `None` member. */
  datatype Classification = Unclassified | Wall | Floor | Ceiling | Table | Seat | Window | Door

  /** What ProcessMesh reads from a MeshFilter: the shared mesh's arrays and its transform. */
  datatype SourceMesh = SourceMesh(
    vertices: seq<Vec3>,
    triangles: seq<int>,
    normals: seq<Vec3>,
    transformPoint: Vec3 -> Vec3,
    transformDirection: Vec3 -> Vec3)

  /** The scanner settings the loop reads; `halfWidth` is corridorWidth * 0.5. */
  datatype Settings = Settings(
    a: Vec3,
    b: Vec3,
    halfWidth: real,
    maxSlope: real,
    gradient: Option<real -> Color>,
    angleToUp: Vec3 -> real)

  /** The three lists the loop fills (worldVerts, worldColors, worldTris). */
  datatype Buffers = Buffers(verts: seq<Vec3>, colors: seq<Color>, tris: seq<int>)

  const Empty := Buffers([], [], [])

  function NumFaces(m: SourceMesh): nat
  {
    |m.triangles| / 3
  }

  /** The three corner indices of face f name vertices. */
  predicate CornersInRange(m: SourceMesh, f: nat)
  {
    && 3 * f + 2 < |m.triangles|
    && 0 <= m.triangles[3 * f] < |m.vertices|
    && 0 <= m.triangles[3 * f + 1] < |m.vertices|
    && 0 <= m.triangles[3 * f + 2] < |m.vertices|
  }

  /** The first corner index of face f names a normal. */
  predicate NormalInRange(m: SourceMesh, f: nat)
  {
    3 * f < |m.triangles| && 0 <= m.triangles[3 * f] < |m.normals|
  }

  /**
   * What the loop reads before it decides whether to keep a face: whole
   * triangles (Unity keeps the triangle list of a triangle mesh whole), a
   * classification for every face, and vertices for the corners of every
   * Floor face. Other faces are skipped before their corners are read.
   */
  predicate Readable(m: SourceMesh, cls: seq<Classification>)
  {
    && |m.triangles| % 3 == 0
    && |cls| >= NumFaces(m)
    && forall f :: 0 <= f < NumFaces(m) && cls[f] == Floor ==> CornersInRange(m, f)
  }

  /** Corner k (0, 1 or 2) of face f, in world space. */
  function Corner(m: SourceMesh, cls: seq<Classification>, f: nat, k: nat): Vec3
    requires Readable(m, cls) && f < NumFaces(m) && cls[f] == Floor && k < 3
  {
    m.transformPoint(m.vertices[m.triangles[3 * f + k]])
  }

  /** (w0 + w1 + w2) / 3. */
  function Centroid(m: SourceMesh, cls: seq<Classification>, f: nat): Vec3
    requires Readable(m, cls) && f < NumFaces(m) && cls[f] == Floor
  {
    Scale(1.0 / 3.0, Add(Add(Corner(m, cls, f, 0), Corner(m, cls, f, 1)), Corner(m, cls, f, 2)))
  }

  /** The loop's two `continue` tests, negated: Floor, and centroid inside the corridor. */
  predicate KeepFace(m: SourceMesh, cls: seq<Classification>, s: Settings, f: nat)
    requires Readable(m, cls) && f < NumFaces(m)
  {
    cls[f] == Floor && InsideCorridor(Centroid(m, cls, f), s.a, s.b, s.halfWidth)
  }

  /** Everything the loop reads: in addition, a normal for the first corner of every kept face. */
  predicate Processable(m: SourceMesh, cls: seq<Classification>, s: Settings)
  {
    && Readable(m, cls)
    && forall f :: 0 <= f < NumFaces(m) && KeepFace(m, cls, s, f) ==> NormalInRange(m, f)
  }

  /** `Mathf.Clamp01(slope / maxSlope)` for the world normal of the face's first corner. */
  function SlopeParam(m: SourceMesh, cls: seq<Classification>, s: Settings, f: nat): (t: real)
    requires Processable(m, cls, s) && f < NumFaces(m) && KeepFace(m, cls, s, f) && s.maxSlope != 0.0
    ensures 0.0 <= t <= 1.0
  {
    Clamp01(s.angleToUp(m.transformDirection(m.normals[m.triangles[3 * f]])) / s.maxSlope)
  }

  /** The gradient sampled at the slope parameter, or white when no gradient is set. */
  function FaceColor(m: SourceMesh, cls: seq<Classification>, s: Settings, f: nat): Color
    requires Processable(m, cls, s) && f < NumFaces(m) && KeepFace(m, cls, s, f) && s.maxSlope != 0.0
  {
    match s.gradient
    case Some(g) => g(SlopeParam(m, cls, s, f))
    case None => White
  }

  /** The buffers after face f has been emitted. */
  function Emit(m: SourceMesh, cls: seq<Classification>, s: Settings, r: Buffers, f: nat): Buffers
    requires Processable(m, cls, s) && f < NumFaces(m) && KeepFace(m, cls, s, f) && s.maxSlope != 0.0
  {
    var c := FaceColor(m, cls, s, f);
    var base := |r.verts|;
    Buffers(r.verts + [Corner(m, cls, f, 0), Corner(m, cls, f, 1), Corner(m, cls, f, 2)],
            r.colors + [c, c, c],
            r.tris + [base, base + 1, base + 2])
  }

  /** The buffers after the first n faces. */
  function Filtered(m: SourceMesh, cls: seq<Classification>, s: Settings, n: nat): Buffers
    requires Processable(m, cls, s) && n <= NumFaces(m) && s.maxSlope != 0.0
  {
    if n == 0 then Empty
    else
      var r := Filtered(m, cls, s, n - 1);
      if KeepFace(m, cls, s, n - 1) then Emit(m, cls, s, r, n - 1) else r
  }

  /** The indices of the kept faces among the first n, in visiting order. */
  function KeptFaces(m: SourceMesh, cls: seq<Classification>, s: Settings, n: nat): seq<nat>
    requires Readable(m, cls) && n <= NumFaces(m)
  {
    if n == 0 then []
    else KeptFaces(m, cls, s, n - 1) + (if KeepFace(m, cls, s, n - 1) then [n - 1] else [])
  }

  /** The loop itself, proved to compute `Filtered` over all faces. */
  method FilterMesh(m: SourceMesh, cls: seq<Classification>, s: Settings) returns (r: Buffers)
    requires Processable(m, cls, s) && s.maxSlope != 0.0
    ensures r == Filtered(m, cls, s, NumFaces(m))
  {
    var worldVerts: seq<Vec3> := [];
    var worldColors: seq<Color> := [];
    var worldTris: seq<int> := [];
    var ti := 0;
    while ti < |m.triangles|
      invariant 0 <= ti <= |m.triangles| && ti % 3 == 0
      invariant Buffers(worldVerts, worldColors, worldTris) == Filtered(m, cls, s, ti / 3)
    {
      var faceIdx := ti / 3;
      assert ti == 3 * faceIdx;
      if cls[faceIdx] == Floor {
        assert CornersInRange(m, faceIdx);
        var w0 := m.transformPoint(m.vertices[m.triangles[ti]]);
        var w1 := m.transformPoint(m.vertices[m.triangles[ti + 1]]);
        var w2 := m.transformPoint(m.vertices[m.triangles[ti + 2]]);
        var centroid := Scale(1.0 / 3.0, Add(Add(w0, w1), w2));
        if InsideCorridor(centroid, s.a, s.b, s.halfWidth) {
          assert KeepFace(m, cls, s, faceIdx);
          var n0 := m.transformDirection(m.normals[m.triangles[ti]]);
          var t := Clamp01(s.angleToUp(n0) / s.maxSlope);
          var c := if s.gradient.Some? then s.gradient.value(t) else White;
          var baseIdx := |worldVerts|;
          worldVerts := worldVerts + [w0, w1, w2];
          worldColors := worldColors + [c, c, c];
          worldTris := worldTris + [baseIdx, baseIdx + 1, baseIdx + 2];
        }
      }
      ti := ti + 3;
    }
    r := Buffers(worldVerts, worldColors, worldTris);
  }

  /**
   * A face is kept exactly when it is Floor with its centroid inside the
   * corridor; the kept faces come out strictly increasing, so in input order.
   */
  lemma {:induction false} KeptFacesSelected(m: SourceMesh, cls: seq<Classification>, s: Settings, n: nat)
    requires Readable(m, cls) && n <= NumFaces(m)
    ensures forall i :: 0 <= i < |KeptFaces(m, cls, s, n)| ==> KeptFaces(m, cls, s, n)[i] < n
    ensures forall i, j :: 0 <= i < j < |KeptFaces(m, cls, s, n)| ==> KeptFaces(m, cls, s, n)[i] < KeptFaces(m, cls, s, n)[j]
    ensures forall f :: 0 <= f < n ==> (f in KeptFaces(m, cls, s, n) <==> KeepFace(m, cls, s, f))
  {
    if n > 0 {
      KeptFacesSelected(m, cls, s, n - 1);
      var prev := KeptFaces(m, cls, s, n - 1);
      var kept := KeptFaces(m, cls, s, n);
      if KeepFace(m, cls, s, n - 1) {
        assert kept == prev + [n - 1];
        forall f | 0 <= f < n
          ensures f in kept <==> KeepFace(m, cls, s, f)
        {
          if f < n - 1 {
            assert f in kept <==> f in prev;
          }
        }
      } else {
        assert kept == prev;
        assert n - 1 !in prev;
      }
    }
  }

  /**
   * After the first n faces, all three buffers hold three entries per kept
   * face, and every index is its own position: worldTris[j] == j.
   */
  lemma {:induction false} FilteredShape(m: SourceMesh, cls: seq<Classification>, s: Settings, n: nat)
    requires Processable(m, cls, s) && n <= NumFaces(m) && s.maxSlope != 0.0
    ensures |Filtered(m, cls, s, n).verts| == 3 * |KeptFaces(m, cls, s, n)|
    ensures |Filtered(m, cls, s, n).colors| == 3 * |KeptFaces(m, cls, s, n)|
    ensures |Filtered(m, cls, s, n).tris| == 3 * |KeptFaces(m, cls, s, n)|
    ensures forall j :: 0 <= j < |Filtered(m, cls, s, n).tris| ==> Filtered(m, cls, s, n).tris[j] == j
  {
    if n > 0 {
      FilteredShape(m, cls, s, n - 1);
    }
  }

  /**
   * Output triangle i is face f: its three world corners in order, and three
   * copies of that face's colour (white when no gradient is set).
   */
  predicate OutputFace(m: SourceMesh, cls: seq<Classification>, s: Settings, r: Buffers, i: nat, f: nat)
    requires Processable(m, cls, s) && f < NumFaces(m) && KeepFace(m, cls, s, f) && s.maxSlope != 0.0
  {
    && 3 * i + 2 < |r.verts| && 3 * i + 2 < |r.colors|
    && r.verts[3 * i] == Corner(m, cls, f, 0)
    && r.verts[3 * i + 1] == Corner(m, cls, f, 1)
    && r.verts[3 * i + 2] == Corner(m, cls, f, 2)
    && r.colors[3 * i] == FaceColor(m, cls, s, f)
    && r.colors[3 * i + 1] == FaceColor(m, cls, s, f)
    && r.colors[3 * i + 2] == FaceColor(m, cls, s, f)
    && (s.gradient.None? ==> r.colors[3 * i] == White)
  }

  /** Emitting a face leaves the triangles already output as they were. */
  lemma EmitKeeps(m: SourceMesh, cls: seq<Classification>, s: Settings, r: Buffers, i: nat, f: nat, g: nat)
    requires Processable(m, cls, s) && f < NumFaces(m) && g < NumFaces(m) && s.maxSlope != 0.0
    requires KeepFace(m, cls, s, f) && KeepFace(m, cls, s, g)
    requires OutputFace(m, cls, s, r, i, f)
    ensures OutputFace(m, cls, s, Emit(m, cls, s, r, g), i, f)
  {
    var e := Emit(m, cls, s, r, g);
    assert e.verts[..|r.verts|] == r.verts;
    assert e.colors[..|r.colors|] == r.colors;
  }

  /** Emitting a face outputs it as the next triangle. */
  lemma EmitAdds(m: SourceMesh, cls: seq<Classification>, s: Settings, r: Buffers, i: nat, g: nat)
    requires Processable(m, cls, s) && g < NumFaces(m) && KeepFace(m, cls, s, g) && s.maxSlope != 0.0
    requires |r.verts| == 3 * i && |r.colors| == 3 * i
    ensures OutputFace(m, cls, s, Emit(m, cls, s, r, g), i, g)
  {
  }

  /** Triangle i of the output is kept face i, for every i. */
  lemma {:induction false} FilteredTriangles(m: SourceMesh, cls: seq<Classification>, s: Settings, n: nat)
    requires Processable(m, cls, s) && n <= NumFaces(m) && s.maxSlope != 0.0
    ensures var kept := KeptFaces(m, cls, s, n);
            forall i :: 0 <= i < |kept| ==>
              kept[i] < NumFaces(m) && KeepFace(m, cls, s, kept[i]) &&
              OutputFace(m, cls, s, Filtered(m, cls, s, n), i, kept[i])
  {
    if n > 0 {
      FilteredTriangles(m, cls, s, n - 1);
      FilteredShape(m, cls, s, n - 1);
      KeptFacesSelected(m, cls, s, n - 1);
      var prev := Filtered(m, cls, s, n - 1);
      var prevKept := KeptFaces(m, cls, s, n - 1);
      if KeepFace(m, cls, s, n - 1) {
        var r := Filtered(m, cls, s, n);
        var kept := KeptFaces(m, cls, s, n);
        assert r == Emit(m, cls, s, prev, n - 1);
        assert kept == prevKept + [n - 1];
        forall i | 0 <= i < |kept|
          ensures kept[i] < NumFaces(m) && KeepFace(m, cls, s, kept[i]) && OutputFace(m, cls, s, r, i, kept[i])
        {
          if i < |prevKept| {
            assert kept[i] == prevKept[i];
            EmitKeeps(m, cls, s, prev, i, prevKept[i], n - 1);
          } else {
            EmitAdds(m, cls, s, prev, i, n - 1);
          }
        }
      }
    }
  }

  /** The loop emits something exactly when at least one face is kept. */
  lemma FilteredNonEmptyIff(m: SourceMesh, cls: seq<Classification>, s: Settings)
    requires Processable(m, cls, s) && s.maxSlope != 0.0
    ensures |Filtered(m, cls, s, NumFaces(m)).verts| > 0 <==>
            exists f :: 0 <= f < NumFaces(m) && KeepFace(m, cls, s, f)
  {
    var n := NumFaces(m);
    var kept := KeptFaces(m, cls, s, n);
    assert |Filtered(m, cls, s, n).verts| == 3 * |kept| by {
      FilteredShape(m, cls, s, n);
    }
    assert (forall i :: 0 <= i < |kept| ==> kept[i] < n) &&
           (forall f :: 0 <= f < n ==> (f in kept <==> KeepFace(m, cls, s, f))) by {
      KeptFacesSelected(m, cls, s, n);
    }
    if |kept| > 0 {
      assert kept[0] < n && kept[0] in kept;
    }
  }
}
