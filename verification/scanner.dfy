/**
 * CorridorScanner: the component that keeps, for every AR mesh fragment,
 * a GameObject showing the fragment's corridor floor faces.
 *
 * The dictionary `corridorObjects` maps a TrackableId to the GameObject made
 * for it. Here a GameObject is its creation number (so that "replace the mesh
 * of the existing object" and "create a new object" stay distinct) together
 * with the buffers UpdateMesh last wrote into it. `created` counts the
 * GameObjects made so far.
 *
 * The component is parameterised by the function that reads the identifier
 * from the mesh name: `ExtractTrackableId` for the code as written, or the
 * corrected `ExtractTrackableIdHex`. Nothing below depends on which one is
 * used, beyond the invalid identifier being skipped.
 */
module Scanner {
  import opened Basics
  import opened TrackableIds
  import opened CorridorGeometry
  import opened CorridorFilter

  /** A mesh of the ARMeshManager: its GameObject name and what ProcessMesh reads. */
  datatype MeshFilter = MeshFilter(name: string, mesh: SourceMesh)

  /** The GameObject made for an identifier: its creation number and its mesh. */
  datatype CorridorObject = CorridorObject(serial: nat, mesh: Buffers)

  /** corridorObjects, with the number of GameObjects made so far. */
  datatype Scene = Scene(objects: map<Id, CorridorObject>, created: nat)

  /**
   * The mesh subsystem's per-face classification for an identifier; None
   * when it is unavailable (always so outside an iOS device build).
   */
  type Classifier = Id -> Option<seq<Classification>>

  /** Reads a TrackableId from a mesh name. */
  type Extractor = string -> Id

  function IdOf(mf: MeshFilter, ex: Extractor): Id
  {
    ex(mf.name)
  }

  /** The identifiers named by a list of meshes. */
  function IdsOf(mfs: seq<MeshFilter>, ex: Extractor): set<Id>
  {
    set i | 0 <= i < |mfs| :: IdOf(mfs[i], ex)
  }

  /** When ProcessMesh reaches the loop, the loop can read everything it reads. */
  predicate CanProcess(mf: MeshFilter, ex: Extractor, classify: Classifier, s: Settings)
  {
    IdOf(mf, ex) != InvalidId && classify(IdOf(mf, ex)).Some? ==> Processable(mf.mesh, classify(IdOf(mf, ex)).value, s)
  }

  predicate AllProcessable(mfs: seq<MeshFilter>, ex: Extractor, classify: Classifier, s: Settings)
  {
    forall i :: 0 <= i < |mfs| ==> CanProcess(mfs[i], ex, classify, s)
  }

  /** Buffers as the loop leaves them: equal lengths, whole triangles, worldTris[j] == j. */
  predicate WellShaped(b: Buffers)
  {
    && |b.verts| == |b.colors| == |b.tris|
    && |b.tris| % 3 == 0
    && forall j :: 0 <= j < |b.tris| ==> b.tris[j] == j
  }

  /**
   * What every reachable dictionary satisfies: the invalid identifier is
   * never a key, every object holds a non-empty well-shaped mesh, and no
   * two identifiers share a GameObject.
   */
  predicate SceneValid(t: Scene)
  {
    && InvalidId !in t.objects
    && (forall id :: id in t.objects ==>
          t.objects[id].serial < t.created && |t.objects[id].mesh.verts| > 0 && WellShaped(t.objects[id].mesh))
    && (forall i, j :: i in t.objects && j in t.objects && i != j ==> t.objects[i].serial != t.objects[j].serial)
  }

  /** Step 6 of ProcessMesh: create or update the object for a non-empty result, drop it for an empty one. */
  function Store(t: Scene, id: Id, result: Buffers): Scene
  {
    if |result.verts| > 0 then
      if id in t.objects then Scene(t.objects[id := CorridorObject(t.objects[id].serial, result)], t.created)
      else Scene(t.objects[id := CorridorObject(t.created, result)], t.created + 1)
    else if id in t.objects then Scene(t.objects - {id}, t.created)
    else t
  }

  /** ProcessMesh on the dictionary. */
  function Processed(t: Scene, mf: MeshFilter, ex: Extractor, classify: Classifier, s: Settings): Scene
    requires CanProcess(mf, ex, classify, s) && s.maxSlope != 0.0
  {
    var id := IdOf(mf, ex);
    if id == InvalidId then t
    else match classify(id)
      case None => t
      case Some(cls) => Store(t, id, Filtered(mf.mesh, cls, s, NumFaces(mf.mesh)))
  }

  /** RemoveMesh on the dictionary. */
  function Removed(t: Scene, mf: MeshFilter, ex: Extractor): Scene
  {
    var id := IdOf(mf, ex);
    if id in t.objects then Scene(t.objects - {id}, t.created) else t
  }

  /** ProcessMesh applied to each mesh in turn. */
  function ProcessedAll(t: Scene, mfs: seq<MeshFilter>, ex: Extractor, classify: Classifier, s: Settings): Scene
    requires AllProcessable(mfs, ex, classify, s) && s.maxSlope != 0.0
  {
    if |mfs| == 0 then t
    else Processed(ProcessedAll(t, mfs[..|mfs| - 1], ex, classify, s), mfs[|mfs| - 1], ex, classify, s)
  }

  /** RemoveMesh applied to each mesh in turn. */
  function RemovedAll(t: Scene, mfs: seq<MeshFilter>, ex: Extractor): Scene
  {
    if |mfs| == 0 then t else Removed(RemovedAll(t, mfs[..|mfs| - 1], ex), mfs[|mfs| - 1], ex)
  }

  /** One meshesChanged event while scanning: added, then updated, then removed. */
  function HandleEvent(t: Scene, added: seq<MeshFilter>, updated: seq<MeshFilter>, removed: seq<MeshFilter>,
                       ex: Extractor, classify: Classifier, s: Settings): Scene
    requires AllProcessable(added, ex, classify, s) && AllProcessable(updated, ex, classify, s) && s.maxSlope != 0.0
  {
    RemovedAll(ProcessedAll(ProcessedAll(t, added, ex, classify, s), updated, ex, classify, s), removed, ex)
  }

  /**
   * The dictionary rules: a non-empty result creates the entry (a new
   * GameObject) if absent and otherwise replaces the mesh of the existing
   * one; an empty result removes the entry; other identifiers keep theirs.
   */
  lemma StoreRules(t: Scene, id: Id, result: Buffers)
    ensures var u := Store(t, id, result);
      && (|result.verts| > 0 ==> id in u.objects && u.objects[id].mesh == result)
      && (|result.verts| > 0 && id in t.objects ==> u.objects[id].serial == t.objects[id].serial && u.created == t.created)
      && (|result.verts| > 0 && id !in t.objects ==> u.objects[id].serial == t.created && u.created == t.created + 1)
      && (|result.verts| == 0 ==> id !in u.objects && u.created == t.created)
      && (forall other :: other != id ==> (other in u.objects <==> other in t.objects))
      && (forall other :: other != id && other in t.objects ==> u.objects[other] == t.objects[other])
  {
  }

  /** An unreadable name or a missing classification leaves the dictionary as it was (no retraction). */
  lemma ProcessedSkips(t: Scene, mf: MeshFilter, ex: Extractor, classify: Classifier, s: Settings)
    requires CanProcess(mf, ex, classify, s) && s.maxSlope != 0.0
    requires IdOf(mf, ex) == InvalidId || classify(IdOf(mf, ex)).None?
    ensures Processed(t, mf, ex, classify, s) == t
  {
  }

  /**
   * With a readable name and a classification, the identifier has an entry
   * afterwards exactly when some face is Floor with its centroid in the
   * corridor, and that entry holds the filtered buffers.
   */
  lemma ProcessedEntry(t: Scene, mf: MeshFilter, ex: Extractor, classify: Classifier, s: Settings)
    requires CanProcess(mf, ex, classify, s) && s.maxSlope != 0.0
    requires IdOf(mf, ex) != InvalidId && classify(IdOf(mf, ex)).Some?
    ensures var m := mf.mesh;
      var id := IdOf(mf, ex);
      var cls := classify(id).value;
      var u := Processed(t, mf, ex, classify, s);
      && (id in u.objects <==> exists f :: 0 <= f < NumFaces(m) && KeepFace(m, cls, s, f))
      && (id in u.objects ==> u.objects[id].mesh == Filtered(m, cls, s, NumFaces(m)))
  {
    FilteredNonEmptyIff(mf.mesh, classify(IdOf(mf, ex)).value, s);
  }

  lemma StoreValid(t: Scene, id: Id, result: Buffers)
    requires SceneValid(t) && id != InvalidId && WellShaped(result)
    ensures SceneValid(Store(t, id, result))
  {
    var u := Store(t, id, result);
    if |result.verts| > 0 {
      forall i, j | i in u.objects && j in u.objects && i != j
        ensures u.objects[i].serial != u.objects[j].serial
      {
        if i != id && j != id {
          assert u.objects[i] == t.objects[i] && u.objects[j] == t.objects[j];
        }
      }
    }
  }

  /** ProcessMesh keeps the dictionary invariant. */
  lemma ProcessedValid(t: Scene, mf: MeshFilter, ex: Extractor, classify: Classifier, s: Settings)
    requires SceneValid(t) && CanProcess(mf, ex, classify, s) && s.maxSlope != 0.0
    ensures SceneValid(Processed(t, mf, ex, classify, s))
  {
    var id := IdOf(mf, ex);
    if id != InvalidId && classify(id).Some? {
      var cls := classify(id).value;
      var n := NumFaces(mf.mesh);
      FilteredShape(mf.mesh, cls, s, n);
      StoreValid(t, id, Filtered(mf.mesh, cls, s, n));
    }
  }

  lemma {:induction false} ProcessedAllValid(t: Scene, mfs: seq<MeshFilter>, ex: Extractor, classify: Classifier, s: Settings)
    requires SceneValid(t) && AllProcessable(mfs, ex, classify, s) && s.maxSlope != 0.0
    ensures SceneValid(ProcessedAll(t, mfs, ex, classify, s))
  {
    if |mfs| > 0 {
      ProcessedAllValid(t, mfs[..|mfs| - 1], ex, classify, s);
      ProcessedValid(ProcessedAll(t, mfs[..|mfs| - 1], ex, classify, s), mfs[|mfs| - 1], ex, classify, s);
    }
  }

  /**
   * Removing a list of meshes deletes exactly their identifiers' entries;
   * every other entry, and the count of objects made, is unchanged.
   */
  lemma {:induction false} RemovedAllDeletes(t: Scene, mfs: seq<MeshFilter>, ex: Extractor)
    ensures RemovedAll(t, mfs, ex).objects == t.objects - IdsOf(mfs, ex)
    ensures RemovedAll(t, mfs, ex).created == t.created
  {
    if |mfs| > 0 {
      var init := mfs[..|mfs| - 1];
      RemovedAllDeletes(t, init, ex);
      assert IdsOf(mfs, ex) == IdsOf(init, ex) + {IdOf(mfs[|mfs| - 1], ex)} by {
        forall x | x in IdsOf(mfs, ex) ensures x in IdsOf(init, ex) + {IdOf(mfs[|mfs| - 1], ex)} {
          var i :| 0 <= i < |mfs| && IdOf(mfs[i], ex) == x;
          if i < |mfs| - 1 {
            assert init[i] == mfs[i];
          }
        }
        forall x | x in IdsOf(init, ex) ensures x in IdsOf(mfs, ex) {
          var i :| 0 <= i < |init| && IdOf(init[i], ex) == x;
          assert mfs[i] == init[i];
        }
      }
    }
  }

  lemma RemovedAllValid(t: Scene, mfs: seq<MeshFilter>, ex: Extractor)
    requires SceneValid(t)
    ensures SceneValid(RemovedAll(t, mfs, ex))
  {
    RemovedAllDeletes(t, mfs, ex);
  }

  /**
   * A whole event keeps the invariant, and afterwards none of the removed
   * meshes' identifiers has an entry, whatever `added` and `updated` held.
   */
  lemma HandleEventProperties(t: Scene, added: seq<MeshFilter>, updated: seq<MeshFilter>, removed: seq<MeshFilter>,
                              ex: Extractor, classify: Classifier, s: Settings)
    requires SceneValid(t)
    requires AllProcessable(added, ex, classify, s) && AllProcessable(updated, ex, classify, s) && s.maxSlope != 0.0
    ensures SceneValid(HandleEvent(t, added, updated, removed, ex, classify, s))
    ensures forall id :: id in IdsOf(removed, ex) ==> id !in HandleEvent(t, added, updated, removed, ex, classify, s).objects
  {
    ProcessedAllValid(t, added, ex, classify, s);
    var afterAdded := ProcessedAll(t, added, ex, classify, s);
    ProcessedAllValid(afterAdded, updated, ex, classify, s);
    var afterUpdated := ProcessedAll(afterAdded, updated, ex, classify, s);
    RemovedAllValid(afterUpdated, removed, ex);
    RemovedAllDeletes(afterUpdated, removed, ex);
  }

  /**
   * With the extractor as written, a mesh named like the source's own example
   * "MeshFilter 1234-abcdef" is skipped and the dictionary is left alone; the
   * corrected extractor gives it the identifier (0x1234, 0xabcdef).
   */
  lemma CommentExampleMesh(t: Scene, mesh: SourceMesh, classify: Classifier, s: Settings)
    requires s.maxSlope != 0.0
    ensures var mf := MeshFilter("MeshFilter 1234-abcdef", mesh);
      && CanProcess(mf, ExtractTrackableId, classify, s)
      && Processed(t, mf, ExtractTrackableId, classify, s) == t
      && IdOf(mf, ExtractTrackableIdHex) == Id(0x1234, 0xabcdef)
  {
    CommentExampleRejected();
    CommentExampleReadAsHex();
  }

  class CorridorScanner {
    /** How the identifier is read from a mesh name (ExtractTrackableId in the code as written). */
    const extract: Extractor
    const corridorWidth: real
    const maxSlope: real
    /** slopeGradient; None when unset. */
    const slopeGradient: Option<real -> Color>
    /** Vector3.Angle(n, Vector3.up), a Unity call. */
    const angleToUp: Vec3 -> real

    var pointA: Vec3
    var pointB: Vec3
    var isScanning: bool
    /** How many times OnMeshesChanged is subscribed to meshManager.meshesChanged. */
    var subscriptions: nat
    var corridorObjects: map<Id, CorridorObject>
    var created: nat

    ghost predicate Valid()
      reads this
    {
      maxSlope != 0.0 && SceneValid(Scene(corridorObjects, created))
    }

    function CurrentScene(): Scene
      reads this
    {
      Scene(corridorObjects, created)
    }

    /** The settings the per-triangle loop reads; the half-width is corridorWidth * 0.5. */
    function Config(): Settings
      reads this
    {
      Settings(pointA, pointB, corridorWidth * 0.5, maxSlope, slopeGradient, angleToUp)
    }

    constructor (extract: Extractor, corridorWidth: real, maxSlope: real, slopeGradient: Option<real -> Color>,
                 angleToUp: Vec3 -> real)
      requires maxSlope != 0.0
      ensures Valid()
      ensures this.extract == extract && this.corridorWidth == corridorWidth && this.maxSlope == maxSlope
      ensures this.slopeGradient == slopeGradient && this.angleToUp == angleToUp
      ensures !isScanning && subscriptions == 0 && corridorObjects == map[] && created == 0
    {
      this.extract := extract;
      this.corridorWidth := corridorWidth;
      this.maxSlope := maxSlope;
      this.slopeGradient := slopeGradient;
      this.angleToUp := angleToUp;
      pointA := Zero;
      pointB := Zero;
      isScanning := false;
      subscriptions := 0;
      corridorObjects := map[];
      created := 0;
    }

    /** Record the segment, start scanning and subscribe the handler once more. */
    method StartScanning(a: Vec3, b: Vec3)
      requires Valid()
      modifies this
      ensures Valid()
      ensures pointA == a && pointB == b && isScanning
      ensures subscriptions == old(subscriptions) + 1
      ensures CurrentScene() == old(CurrentScene())
    {
      pointA := a;
      pointB := b;
      isScanning := true;
      subscriptions := subscriptions + 1;
    }

    /** Stop scanning, drop one subscription and destroy every corridor object. */
    method Clear()
      requires Valid()
      modifies this
      ensures Valid()
      ensures !isScanning && corridorObjects == map[]
      ensures subscriptions == if old(subscriptions) > 0 then old(subscriptions) - 1 else 0
      ensures pointA == old(pointA) && pointB == old(pointB) && created == old(created)
    {
      isScanning := false;
      if subscriptions > 0 {
        subscriptions := subscriptions - 1;
      }
      corridorObjects := map[];
    }

    method ProcessMesh(mf: MeshFilter, classify: Classifier)
      requires Valid() && CanProcess(mf, extract, classify, Config())
      modifies this
      ensures Valid()
      ensures CurrentScene() == Processed(old(CurrentScene()), mf, extract, classify, old(Config()))
      ensures pointA == old(pointA) && pointB == old(pointB)
      ensures isScanning == old(isScanning) && subscriptions == old(subscriptions)
    {
      ghost var t0 := CurrentScene();
      ghost var s := Config();
      ProcessedValid(t0, mf, extract, classify, s);
      var id := extract(mf.name);
      if id == InvalidId {
        return;
      }
      var faceCls := classify(id);
      if faceCls.None? {
        return;
      }
      var result := FilterMesh(mf.mesh, faceCls.value, Config());
      assert Processed(t0, mf, extract, classify, s) == Store(t0, id, result);
      if |result.verts| > 0 {
        if id !in corridorObjects {
          corridorObjects := corridorObjects[id := CorridorObject(created, Empty)];
          created := created + 1;
        }
        corridorObjects := corridorObjects[id := CorridorObject(corridorObjects[id].serial, result)];
        assert corridorObjects == t0.objects[id := CorridorObject(corridorObjects[id].serial, result)];
      } else if id in corridorObjects {
        corridorObjects := corridorObjects - {id};
      }
      assert CurrentScene() == Store(t0, id, result);
    }

    method RemoveMesh(mf: MeshFilter)
      requires Valid()
      modifies this
      ensures Valid()
      ensures CurrentScene() == Removed(old(CurrentScene()), mf, extract)
      ensures pointA == old(pointA) && pointB == old(pointB)
      ensures isScanning == old(isScanning) && subscriptions == old(subscriptions)
    {
      var id := extract(mf.name);
      if id in corridorObjects {
        corridorObjects := corridorObjects - {id};
      }
    }

    /** The meshesChanged handler: ignored unless scanning; added, then updated, then removed. */
    method OnMeshesChanged(added: seq<MeshFilter>, updated: seq<MeshFilter>, removed: seq<MeshFilter>, classify: Classifier)
      requires Valid()
      requires isScanning ==> AllProcessable(added, extract, classify, Config()) && AllProcessable(updated, extract, classify, Config())
      modifies this
      ensures Valid()
      ensures CurrentScene() ==
        if old(isScanning) then HandleEvent(old(CurrentScene()), added, updated, removed, extract, classify, old(Config()))
        else old(CurrentScene())
      ensures pointA == old(pointA) && pointB == old(pointB)
      ensures isScanning == old(isScanning) && subscriptions == old(subscriptions)
    {
      if !isScanning {
        return;
      }
      ghost var t0 := CurrentScene();
      ghost var s := Config();
      for i := 0 to |added|
        invariant Valid() && Config() == s
        invariant isScanning == old(isScanning) && subscriptions == old(subscriptions)
        invariant CurrentScene() == ProcessedAll(t0, added[..i], extract, classify, s)
      {
        assert added[..i + 1][..i] == added[..i];
        ProcessMesh(added[i], classify);
      }
      assert added[..|added|] == added;
      ghost var t1 := CurrentScene();
      for i := 0 to |updated|
        invariant Valid() && Config() == s
        invariant isScanning == old(isScanning) && subscriptions == old(subscriptions)
        invariant CurrentScene() == ProcessedAll(t1, updated[..i], extract, classify, s)
      {
        assert updated[..i + 1][..i] == updated[..i];
        ProcessMesh(updated[i], classify);
      }
      assert updated[..|updated|] == updated;
      ghost var t2 := CurrentScene();
      for i := 0 to |removed|
        invariant Valid() && Config() == s
        invariant isScanning == old(isScanning) && subscriptions == old(subscriptions)
        invariant CurrentScene() == RemovedAll(t2, removed[..i], extract)
      {
        assert removed[..i + 1][..i] == removed[..i];
        RemoveMesh(removed[i]);
      }
      assert removed[..|removed|] == removed;
    }
  }
}
