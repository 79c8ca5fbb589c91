/**
 * The Unity scene the pool works against, reduced to what the pool uses:
 * Instantiate, SetActive, renaming, SetPositionAndRotation and Destroy on
 * game objects identified by abstract ids.
 */
module UnityScene {

  type ObjId = nat

  /** A transform's position and rotation (a quaternion). */
  datatype Pose = Pose(position: (real, real, real), rotation: (real, real, real, real))

  /** What the pool observes of a GameObject. A prefab is one of these too. */
  datatype GameObject = GameObject(name: string, active: bool, pose: Pose)

  class Scene {
    var objects: map<ObjId, GameObject>
    var nextId: ObjId

    ghost predicate Valid()
      reads this
    {
      forall id :: id in objects ==> id < nextId
    }

    constructor()
      ensures Valid() && objects == map[]
    {
      objects := map[];
      nextId := 0;
    }

    /** Object.Instantiate(original): a new object, named after the original plus "(Clone)". */
    method Instantiate(original: GameObject) returns (id: ObjId)
      requires Valid()
      modifies this
      ensures Valid()
      ensures id !in old(objects)
      ensures objects == old(objects)[id := original.(name := original.name + "(Clone)")]
    {
      id := nextId;
      objects := objects[id := original.(name := original.name + "(Clone)")];
      nextId := nextId + 1;
    }

    method SetActive(id: ObjId, value: bool)
      requires Valid() && id in objects
      modifies this
      ensures Valid()
      ensures objects == old(objects)[id := old(objects)[id].(active := value)]
    {
      objects := objects[id := objects[id].(active := value)];
    }

    /** obj.name = name. */
    method SetName(id: ObjId, name: string)
      requires Valid() && id in objects
      modifies this
      ensures Valid()
      ensures objects == old(objects)[id := old(objects)[id].(name := name)]
    {
      objects := objects[id := objects[id].(name := name)];
    }

    /** obj.transform.SetPositionAndRotation(position, rotation). */
    method SetPose(id: ObjId, pose: Pose)
      requires Valid() && id in objects
      modifies this
      ensures Valid()
      ensures objects == old(objects)[id := old(objects)[id].(pose := pose)]
    {
      objects := objects[id := objects[id].(pose := pose)];
    }

    /** Object.Destroy(obj), taken as immediate. */
    method Destroy(id: ObjId)
      requires Valid()
      modifies this
      ensures Valid()
      ensures objects == old(objects) - {id}
    {
      objects := objects - {id};
    }
  }
}

/**
 * LocalObjectPool (Pooling/LocalObjectPool.cs): per prefab name a FIFO queue
 * of pooled objects, the registered prefabs, and an id-to-object map of
 * active bullets that nothing in the class ever fills.
 */
module ObjectPool {
  import opened BitConverter
  import opened UnityScene
  import opened Wrappers

  function Max0(n: int): nat
  {
    if n < 0 then 0 else n
  }

  /** Objects created by a prewarm: none existed before, no two are the same. */
  ghost predicate FreshDistinct(ids: seq<ObjId>, existing: map<ObjId, GameObject>)
  {
    && (forall i :: 0 <= i < |ids| ==> ids[i] !in existing)
    && (forall i, j :: 0 <= i < j < |ids| ==> ids[i] != ids[j])
  }

  /** The scene entries of prewarmed objects: inactive, named after the key. */
  function Pooled(ids: seq<ObjId>, key: string, pose: Pose): map<ObjId, GameObject>
  {
    map id | id in ids :: GameObject(key, false, pose)
  }

  lemma PooledAppend(ids: seq<ObjId>, obj: ObjId, key: string, pose: Pose)
    ensures Pooled(ids + [obj], key, pose) == Pooled(ids, key, pose)[obj := GameObject(key, false, pose)]
  {
  }

  /** Updating a union at a key is updating its right-hand side there. */
  lemma UnionUpdate(left: map<ObjId, GameObject>, right: map<ObjId, GameObject>, k: ObjId, v: GameObject)
    ensures (left + right)[k := v] == left + right[k := v]
  {
  }

  lemma FreshDistinctAppend(ids: seq<ObjId>, obj: ObjId, existing: map<ObjId, GameObject>)
    requires FreshDistinct(ids, existing)
    requires obj !in existing && forall i :: 0 <= i < |ids| ==> ids[i] != obj
    ensures FreshDistinct(ids + [obj], existing)
  {
  }

  class LocalObjectPool {
    var pools: map<string, seq<ObjId>>
    var prefabMap: map<string, GameObject>
    var activeBulletsById: map<u16, ObjId>
    const scene: Scene

    /**
     * The two dictionaries have the same keys, and every queued object is
     * alive in the scene and named after the queue it sits in.
     */
    ghost predicate Valid()
      reads this, scene
    {
      && scene.Valid()
      && pools.Keys == prefabMap.Keys
      && forall key, id :: key in pools && id in pools[key] ==>
           id in scene.objects && scene.objects[id].name == key
    }

    constructor(scene: Scene)
      requires scene.Valid()
      ensures Valid() && this.scene == scene
      ensures pools == map[] && prefabMap == map[] && activeBulletsById == map[]
      ensures scene.objects == old(scene.objects)
    {
      this.scene := scene;
      pools := map[];
      prefabMap := map[];
      activeBulletsById := map[];
    }

    /**
     * RegisterPrefab(prefab, prewarmCount): a second registration of a name
     * changes nothing; a first one records the prefab and creates a queue of
     * max(prewarmCount, 0) distinct fresh objects, inactive and named after
     * the prefab, and leaves every other object and queue as it was.
     */
    method RegisterPrefab(prefab: GameObject, prewarmCount: int)
      requires Valid()
      modifies this, scene
      ensures Valid()
      ensures activeBulletsById == old(activeBulletsById)
      ensures prefab.name in old(prefabMap) ==>
        pools == old(pools) && prefabMap == old(prefabMap) && scene.objects == old(scene.objects)
      ensures prefab.name !in old(prefabMap) ==>
        var key := prefab.name;
        && prefabMap == old(prefabMap)[key := prefab]
        && key in pools && pools == old(pools)[key := pools[key]]
        && |pools[key]| == Max0(prewarmCount)
        && FreshDistinct(pools[key], old(scene.objects))
        && scene.objects == old(scene.objects) + Pooled(pools[key], key, prefab.pose)
    {
      var key := prefab.name;
      if key in prefabMap {
        return;
      }
      prefabMap := prefabMap[key := prefab];
      pools := pools[key := []];
      Prewarm(key, prefab, prewarmCount);
    }

    /** The prewarm loop of RegisterPrefab, filling the new, empty queue of key. */
    method Prewarm(key: string, prefab: GameObject, prewarmCount: int)
      requires Valid() && key in pools && pools[key] == []
      modifies this, scene
      ensures Valid()
      ensures activeBulletsById == old(activeBulletsById) && prefabMap == old(prefabMap)
      ensures key in pools && pools == old(pools)[key := pools[key]]
      ensures |pools[key]| == Max0(prewarmCount)
      ensures FreshDistinct(pools[key], old(scene.objects))
      ensures scene.objects == old(scene.objects) + Pooled(pools[key], key, prefab.pose)
    {
      assert Pooled([], key, prefab.pose) == map[];
      var i := 0;
      while i < prewarmCount
        invariant 0 <= i <= Max0(prewarmCount)
        invariant Valid()
        invariant activeBulletsById == old(activeBulletsById) && prefabMap == old(prefabMap)
        invariant key in pools && pools == old(pools)[key := pools[key]]
        invariant |pools[key]| == i
        invariant FreshDistinct(pools[key], old(scene.objects))
        invariant scene.objects == old(scene.objects) + Pooled(pools[key], key, prefab.pose)
      {
        ghost var before := pools[key];
        ghost var objectsBefore := scene.objects;
        assert forall j :: 0 <= j < |before| ==> before[j] in objectsBefore;
        var obj := PrewarmOne(key, prefab);
        assert obj !in objectsBefore;
        assert pools == old(pools)[key := before + [obj]];
        PooledAppend(before, obj, key, prefab.pose);
        UnionUpdate(old(scene.objects), Pooled(before, key, prefab.pose), obj, GameObject(key, false, prefab.pose));
        FreshDistinctAppend(before, obj, old(scene.objects));
        i := i + 1;
      }
    }

    /** One prewarm iteration: instantiate, name after the key, deactivate, enqueue. */
    method PrewarmOne(key: string, prefab: GameObject) returns (obj: ObjId)
      requires Valid() && key in pools
      modifies this, scene
      ensures Valid()
      ensures activeBulletsById == old(activeBulletsById) && prefabMap == old(prefabMap)
      ensures obj !in old(scene.objects)
      ensures pools == old(pools)[key := old(pools)[key] + [obj]]
      ensures scene.objects == old(scene.objects)[obj := GameObject(key, false, prefab.pose)]
    {
      obj := scene.Instantiate(prefab);
      scene.SetName(obj, key);
      scene.SetActive(obj, false);
      assert scene.objects == old(scene.objects)[obj := GameObject(key, false, prefab.pose)];
      pools := pools[key := pools[key] + [obj]];
      forall k, id | k in pools && id in pools[k]
        ensures id in scene.objects && scene.objects[id].name == k
      {
        if id != obj {
          assert id in old(pools)[k];
        }
      }
    }

    /**
     * Get(key, position, rotation): null for an unregistered key; otherwise
     * the front of the key's queue (or a new instance when it is empty),
     * renamed to the key, placed, and activated.
     */
    method Get(key: string, pose: Pose) returns (obj: Option<ObjId>)
      requires Valid()
      modifies this, scene
      ensures Valid()
      ensures activeBulletsById == old(activeBulletsById) && prefabMap == old(prefabMap)
      ensures key !in old(pools) ==> obj == None && pools == old(pools) && scene.objects == old(scene.objects)
      ensures key in old(pools) ==>
        && obj.Some?
        && (old(pools)[key] != [] ==>
              obj.value == old(pools)[key][0] && pools == old(pools)[key := old(pools)[key][1..]])
        && (old(pools)[key] == [] ==> obj.value !in old(scene.objects) && pools == old(pools))
        && obj.value in scene.objects
        && scene.objects[obj.value] == GameObject(key, true, pose)
        && (forall id :: id in old(scene.objects) && id != obj.value ==>
              id in scene.objects && scene.objects[id] == old(scene.objects)[id])
        && (forall id :: id in scene.objects ==> id in old(scene.objects) || id == obj.value)
    {
      if key !in pools {
        return None;
      }
      var id;
      if |pools[key]| > 0 {
        id := pools[key][0];
        pools := pools[key := pools[key][1..]];
      } else {
        id := scene.Instantiate(prefabMap[key]);
      }
      Activate(id, key, pose);
      forall k, x | k in pools && x in pools[k]
        ensures x in scene.objects && scene.objects[x].name == k
      {
        assert x in old(pools)[k];
      }
      return Some(id);
    }

    /** The tail of Get: rename the object to the key, place it, activate it. */
    method Activate(id: ObjId, key: string, pose: Pose)
      requires scene.Valid() && id in scene.objects
      modifies scene
      ensures scene.Valid()
      ensures scene.objects == old(scene.objects)[id := GameObject(key, true, pose)]
    {
      scene.SetName(id, key);
      scene.SetPose(id, pose);
      scene.SetActive(id, true);
    }

    /**
     * Release(obj): deactivates obj; if its name has a pool it is appended
     * to that queue only, otherwise it is destroyed and no queue changes.
     */
    method Release(obj: ObjId)
      requires Valid() && obj in scene.objects
      modifies this, scene
      ensures Valid()
      ensures activeBulletsById == old(activeBulletsById) && prefabMap == old(prefabMap)
      ensures var key := old(scene.objects)[obj].name;
        && (key in old(pools) ==>
              && pools == old(pools)[key := old(pools)[key] + [obj]]
              && scene.objects == old(scene.objects)[obj := old(scene.objects)[obj].(active := false)])
        && (key !in old(pools) ==>
              pools == old(pools) && scene.objects == old(scene.objects) - {obj})
    {
      var key := scene.objects[obj].name;
      scene.SetActive(obj, false);
      if key !in pools {
        scene.Destroy(obj);
        return;
      }
      pools := pools[key := pools[key] + [obj]];
    }

    /**
     * ReleaseBulletById(id): Release of the mapped object, or nothing (a
     * logged warning) for an id that is not in the active map.
     */
    method ReleaseBulletById(id: u16)
      requires Valid()
      requires id in activeBulletsById ==> activeBulletsById[id] in scene.objects
      modifies this, scene
      ensures Valid()
      ensures activeBulletsById == old(activeBulletsById) && prefabMap == old(prefabMap)
      ensures id !in old(activeBulletsById) ==> pools == old(pools) && scene.objects == old(scene.objects)
      ensures id in old(activeBulletsById) ==>
        var obj := old(activeBulletsById)[id];
        var key := old(scene.objects)[obj].name;
        && (key in old(pools) ==>
              && pools == old(pools)[key := old(pools)[key] + [obj]]
              && scene.objects == old(scene.objects)[obj := old(scene.objects)[obj].(active := false)])
        && (key !in old(pools) ==>
              pools == old(pools) && scene.objects == old(scene.objects) - {obj})
    {
      if id in activeBulletsById {
        Release(activeBulletsById[id]);
      }
    }
  }

  /**
   * A released object is the next one handed out for its key when its queue
   * was empty: FIFO reuse before any new instance is created.
   */
  method ReuseAfterRelease(pool: LocalObjectPool, obj: ObjId, pose: Pose) returns (got: Option<ObjId>)
    requires pool.Valid() && obj in pool.scene.objects
    requires var key := pool.scene.objects[obj].name; key in pool.pools && pool.pools[key] == []
    modifies pool, pool.scene
    ensures got == Some(obj)
    ensures pool.pools == old(pool.pools)
  {
    var key := pool.scene.objects[obj].name;
    pool.Release(obj);
    got := pool.Get(key, pose);
  }
}
