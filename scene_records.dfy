// The scene snapshot taken when the game starts and replayed on restart.
// The engine's scene is a map from object identity to the object's state;
// an object destroyed since the snapshot is simply absent from the map.

module SceneRecords {
  import opened Physics

  type ObjectId = nat

  datatype Collider = Collider(isTrigger: bool)

  /** What the snapshot looks at in one scene object. */
  datatype SceneObject = SceneObject(
    name: string,
    hasCanvas: bool,
    hasCamera: bool,
    hasGameManager: bool,
    active: bool,
    position: Vec3,
    rotation: Quat,
    scale: Vec3,
    body: Option<Body>,
    collider: Option<Collider>)

  /** ObjectState: one record of the snapshot. */
  datatype ObjectState = ObjectState(
    id: ObjectId,
    position: Vec3,
    rotation: Quat,
    scale: Vec3,
    hadRigidbody: bool,
    bodyType: BodyType,
    gravityScale: real,
    hadCollider: bool,
    isTrigger: bool)

  /** The engine objects whose state is changed in place. */
  class Scene {
    var objects: map<ObjectId, SceneObject>

    constructor (objects: map<ObjectId, SceneObject>)
      ensures this.objects == objects
    {
      this.objects := objects;
    }
  }

  /** Ordinal substring test, as string.Contains. */
  predicate Contains(s: string, sub: string)
    decreases |s|
  {
    (|sub| <= |s| && s[..|sub|] == sub) || (|s| > 0 && Contains(s[1..], sub))
  }

  /** Interface objects, cameras, the manager itself and inactive objects are not recorded. */
  predicate Skipped(o: SceneObject) {
    o.hasCanvas || o.hasCamera || o.hasGameManager
    || Contains(o.name, "UI") || Contains(o.name, "Canvas") || Contains(o.name, "Text")
    || Contains(o.name, "Button") || Contains(o.name, "EventSystem") || Contains(o.name, "GameManager")
    || !o.active
  }

  /** The record taken of one object; absent components leave their fields at the engine's defaults. */
  function Capture(id: ObjectId, o: SceneObject): (st: ObjectState)
    ensures st.id == id && st.position == o.position && st.rotation == o.rotation && st.scale == o.scale
    ensures st.hadRigidbody <==> o.body.Some?
    ensures st.hadCollider <==> o.collider.Some?
  {
    ObjectState(
      id, o.position, o.rotation, o.scale,
      o.body.Some?,
      if o.body.Some? then o.body.value.bodyType else Dynamic,
      if o.body.Some? then o.body.value.gravityScale else 0.0,
      o.collider.Some?,
      if o.collider.Some? then o.collider.value.isTrigger else false)
  }

  /** The snapshot of the objects the engine enumerates, in its order. */
  function Snapshot(objects: map<ObjectId, SceneObject>, found: seq<ObjectId>): seq<ObjectState>
    requires forall id <- found :: id in objects
  {
    if found == [] then []
    else
      var last := found[|found| - 1];
      Snapshot(objects, found[..|found| - 1])
        + (if Skipped(objects[last]) then [] else [Capture(last, objects[last])])
  }

  /** The body a restored object gets back: its recorded type and gravity, at rest. */
  function RestoredBody(st: ObjectState): Body {
    Body(st.bodyType, st.gravityScale, Zero2, 0.0, 0.0, 0.05)
  }

  /** What restoring one record does to the object it names. */
  function RestoreObject(o: SceneObject, st: ObjectState): SceneObject {
    o.(position := st.position,
       rotation := st.rotation,
       scale := st.scale,
       body := if st.hadRigidbody then Some(RestoredBody(st)) else None,
       collider := if st.hadCollider && o.collider.Some? then Some(Collider(st.isTrigger)) else o.collider,
       active := true)
  }

  /** One iteration of the restore loop: objects destroyed since are skipped. */
  function RestoreStep(objects: map<ObjectId, SceneObject>, st: ObjectState): map<ObjectId, SceneObject> {
    if st.id in objects then objects[st.id := RestoreObject(objects[st.id], st)] else objects
  }

  /** The scene after the restore loop has run over the records in order. */
  function RestoreAll(objects: map<ObjectId, SceneObject>, states: seq<ObjectState>): map<ObjectId, SceneObject> {
    if states == [] then objects
    else RestoreStep(RestoreAll(objects, states[..|states| - 1]), states[|states| - 1])
  }

  /** An object as a restore leaves it: unchanged, except that its body is at rest with reset damping. */
  function Settled(o: SceneObject): SceneObject {
    o.(body := if o.body.Some? then
                 Some(o.body.value.(linearVelocity := Zero2, angularVelocity := 0.0,
                                    linearDamping := 0.0, angularDamping := 0.05))
               else None)
  }

  predicate SameIdentity(a: SceneObject, b: SceneObject) {
    a.name == b.name && a.hasCanvas == b.hasCanvas && a.hasCamera == b.hasCamera
    && a.hasGameManager == b.hasGameManager && a.collider.Some? == b.collider.Some?
  }

  /** Some record of the list names the object. */
  predicate Recorded(states: seq<ObjectState>, id: ObjectId) {
    exists k :: 0 <= k < |states| && states[k].id == id
  }

  predicate DistinctIds(states: seq<ObjectState>) {
    forall i, j :: 0 <= i < j < |states| ==> states[i].id != states[j].id
  }

  // ---------------------------------------------------------------------
  // Properties

  /**
   * The snapshot holds exactly one up-to-date record for every enumerated
   * object that is not skipped, and nothing else.
   */
  lemma {:induction false} SnapshotExact(objects: map<ObjectId, SceneObject>, found: seq<ObjectId>, id: ObjectId)
    requires forall x <- found :: x in objects
    ensures Recorded(Snapshot(objects, found), id) <==> (id in found && !Skipped(objects[id]))
    ensures forall k :: 0 <= k < |Snapshot(objects, found)| ==>
      Snapshot(objects, found)[k].id in objects
      && Snapshot(objects, found)[k] == Capture(Snapshot(objects, found)[k].id, objects[Snapshot(objects, found)[k].id])
  {
    if found != [] {
      var init := found[..|found| - 1];
      var last := found[|found| - 1];
      assert found == init + [last];
      assert forall x <- init :: x in objects;
      SnapshotExact(objects, init, id);
      var r0 := Snapshot(objects, init);
      var tail := if Skipped(objects[last]) then [] else [Capture(last, objects[last])];
      var r := Snapshot(objects, found);
      assert r == r0 + tail;
      forall k | 0 <= k < |r|
        ensures r[k].id in objects && r[k] == Capture(r[k].id, objects[r[k].id])
      {
        if k < |r0| {
          assert r[k] == r0[k];
        } else {
          assert r[k] == Capture(last, objects[last]);
        }
      }
      if id in found && !Skipped(objects[id]) {
        if id in init {
          var k :| 0 <= k < |r0| && r0[k].id == id;
          assert r[k].id == id;
        } else {
          assert r[|r0|].id == id;
        }
      }
      if Recorded(r, id) {
        var k :| 0 <= k < |r| && r[k].id == id;
        if k < |r0| {
          assert r0[k].id == id;
          assert Recorded(r0, id);
        }
      }
    }
  }

  /** Objects enumerated once each give records with distinct identities. */
  lemma {:induction false} SnapshotDistinct(objects: map<ObjectId, SceneObject>, found: seq<ObjectId>)
    requires forall x <- found :: x in objects
    requires forall i, j :: 0 <= i < j < |found| ==> found[i] != found[j]
    ensures DistinctIds(Snapshot(objects, found))
  {
    if found != [] {
      var init := found[..|found| - 1];
      var last := found[|found| - 1];
      assert forall x <- init :: x in objects;
      SnapshotDistinct(objects, init);
      var r0 := Snapshot(objects, init);
      assert last !in init by {
        forall i | 0 <= i < |init| ensures init[i] != last {
          assert init[i] == found[i];
        }
      }
      SnapshotExact(objects, init, last);
      assert !Recorded(r0, last);
      var r := Snapshot(objects, found);
      assert r == r0 + (if Skipped(objects[last]) then [] else [Capture(last, objects[last])]);
      forall i, j | 0 <= i < j < |r| ensures r[i].id != r[j].id {
        if j < |r0| {
          assert r[i] == r0[i] && r[j] == r0[j];
        } else {
          assert r[i] == r0[i];
          assert r[j].id == last;
        }
      }
    }
  }

  /** Restoring neither creates nor removes objects. */
  lemma {:induction false} RestoreKeepsObjects(objects: map<ObjectId, SceneObject>, states: seq<ObjectState>)
    ensures RestoreAll(objects, states).Keys == objects.Keys
  {
    if states != [] {
      RestoreKeepsObjects(objects, states[..|states| - 1]);
    }
  }

  /**
   * After the restore loop every object still present that some record
   * names has been restored from that record, and every other object is
   * untouched.
   */
  lemma {:induction false} RestoreAllEffect(objects: map<ObjectId, SceneObject>, states: seq<ObjectState>, id: ObjectId)
    requires DistinctIds(states)
    requires id in objects
    ensures id in RestoreAll(objects, states)
    ensures forall k :: 0 <= k < |states| && states[k].id == id ==>
      RestoreAll(objects, states)[id] == RestoreObject(objects[id], states[k])
    ensures (forall k :: 0 <= k < |states| ==> states[k].id != id) ==>
      RestoreAll(objects, states)[id] == objects[id]
  {
    RestoreKeepsObjects(objects, states);
    if states != [] {
      var init := states[..|states| - 1];
      var last := states[|states| - 1];
      assert DistinctIds(init);
      RestoreAllEffect(objects, init, id);
      RestoreKeepsObjects(objects, init);
      if last.id == id {
        forall k | 0 <= k < |init| ensures init[k].id != id {
          assert states[k] == init[k];
        }
      } else {
        forall k | 0 <= k < |states| && states[k].id == id
          ensures k < |init| && states[k] == init[k]
        {
        }
      }
    }
  }

  /**
   * A record replayed onto the object it was taken from gives the object
   * back as it was, at rest, whatever has happened to its transform, body,
   * trigger flag or activity since.
   */
  lemma CaptureRestore(id: ObjectId, o: SceneObject, cur: SceneObject)
    requires o.active && SameIdentity(o, cur)
    ensures RestoreObject(cur, Capture(id, o)) == Settled(o)
  {
  }

  /**
   * Restart: with each object enumerated once, every recorded object that
   * still exists, and has kept its name and components, is back in its
   * recorded state and at rest; nothing else in the scene changes.
   */
  lemma RestartRestoresScene(
    original: map<ObjectId, SceneObject>, found: seq<ObjectId>,
    current: map<ObjectId, SceneObject>, id: ObjectId)
    requires forall x <- found :: x in original
    requires forall i, j :: 0 <= i < j < |found| ==> found[i] != found[j]
    requires id in current
    ensures RestoreAll(current, Snapshot(original, found)).Keys == current.Keys
    ensures id in found && !Skipped(original[id]) && SameIdentity(original[id], current[id]) ==>
      RestoreAll(current, Snapshot(original, found))[id] == Settled(original[id])
    ensures !(id in found && !Skipped(original[id])) ==>
      RestoreAll(current, Snapshot(original, found))[id] == current[id]
  {
    var r := Snapshot(original, found);
    SnapshotDistinct(original, found);
    SnapshotExact(original, found, id);
    RestoreAllEffect(current, r, id);
    RestoreKeepsObjects(current, r);
    if Recorded(r, id) {
      var k :| 0 <= k < |r| && r[k].id == id;
      assert r[k] == Capture(id, original[id]);
      if SameIdentity(original[id], current[id]) {
        CaptureRestore(id, original[id], current[id]);
      }
    } else {
      assert forall k :: 0 <= k < |r| ==> r[k].id != id;
    }
  }
}
