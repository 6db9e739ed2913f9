/**
 * SceneManagerPrivate of src/SceneManager.cc: the coordinator that owns a
 * Current scene set (scenes in sync with the simulation) and a New scene
 * set (scenes waiting for a full scene snapshot).
 *
 * A scene added by the user goes to the New set and, when no snapshot
 * request is outstanding, a "scene_info" request is published.  The
 * response stores the snapshot in the New set and marks a promotion as
 * needed; the next UpdateScenes ticks the New set and moves its scenes to
 * the Current set.  A scene-change notification demotes every scene back
 * to the New set and requests a fresh snapshot.  Entity deletions are
 * correlated by request id: the request records the entity name, a
 * successful response buffers it as an approved removal in both sets.
 *
 * Publishing is modelled by the list of request ids sent so far; the id of
 * a new request is a parameter.
 */
module Manager {
  import opened Msgs
  import opened Scenes
  import opened GraphRules
  import opened SubScenes

  /** The C++ conversion of a signed 32-bit message id to unsigned int (modulo 2^32). */
  function ToUInt32(id: int): (r: nat)
    ensures r < 0x1_0000_0000
    ensures 0 <= id < 0x1_0000_0000 ==> r == id
    ensures -0x8000_0000 <= id < 0 ==> r == id + 0x1_0000_0000
  {
    id % 0x1_0000_0000
  }

  /** The two conversions agree exactly on ids a 32-bit message can carry. */
  lemma ToUInt32Injective(a: int, b: int)
    requires -0x8000_0000 <= a < 0x8000_0000 && -0x8000_0000 <= b < 0x8000_0000
    ensures ToUInt32(a) == ToUInt32(b) <==> a == b
  {
  }

  /**
   * SceneManagerPrivate::GetSceneAt as written: the Current set at `index`,
   * else the New set at the same `index`.
   */
  function SceneAtAsWritten(current: seq<Scene>, newScenes: seq<Scene>, index: nat): Scene? {
    if index < |current| then current[index]
    else if index < |newScenes| then newScenes[index]
    else null
  }

  /**
   * With one Current and one New scene the count is 2, yet index 1 finds
   * nothing: the New scene cannot be reached by index.
   */
  lemma SceneAtAsWrittenMissesNewScene(a: Scene, b: Scene)
    ensures |[a] + [b]| == 2 && SceneAtAsWritten([a], [b], 1) == null
  {
  }

  /** GetSceneAt as evidently intended: indices run over the Current scenes, then the New ones. */
  function SceneAtIntended(current: seq<Scene>, newScenes: seq<Scene>, index: nat): (r: Scene?)
    ensures index < |current| + |newScenes| ==> r == (current + newScenes)[index]
    ensures index >= |current| + |newScenes| ==> r == null
  {
    if index < |current| then current[index]
    else if index - |current| < |newScenes| then newScenes[index - |current|]
    else null
  }

  /**
   * A scene's graph after SceneManagerPrivate::UpdateScenes: ticked with the
   * Current set's buffers if it is a Current scene, then with the New set's
   * buffers if it is a New scene and a promotion was due.
   */
  function AfterUpdate(g: Graph, inCurrent: bool, promotedFromNew: bool, current: TickInput, newInput: TickInput): Graph {
    var ticked := if inCurrent then TickGraph(g, current) else g;
    if promotedFromNew then TickGraph(ticked, newInput) else ticked
  }

  class SceneManager {
    const currentScenes: SubSceneManager
    const newScenes: SubSceneManager
    var sceneRequestId: int
    var promotionNeeded: bool
    var requestedRemovals: map<nat, string>
    /** The ids of the "scene_info" requests published so far, oldest first. */
    var publishedRequests: seq<int>

    ghost predicate Valid()
      reads this, currentScenes, newScenes
    {
      && currentScenes != newScenes
      && currentScenes.variant == CurrentSet && newScenes.variant == NewSet
      && currentScenes.Valid() && newScenes.Valid()
      && (sceneRequestId != -1 ==> |publishedRequests| > 0 && publishedRequests[|publishedRequests| - 1] == sceneRequestId)
    }

    constructor ()
      ensures Valid() && fresh(currentScenes) && fresh(newScenes)
      ensures currentScenes.scenes == [] && newScenes.scenes == []
      ensures sceneRequestId == -1 && !promotionNeeded && requestedRemovals == map[] && publishedRequests == []
    {
      currentScenes := new SubSceneManager(CurrentSet);
      newScenes := new SubSceneManager(NewSet);
      sceneRequestId := -1;
      promotionNeeded := false;
      requestedRemovals := map[];
      publishedRequests := [];
    }

    /** Every scene is counted once per set it is in. */
    function GetSceneCount(): (r: nat)
      reads this, currentScenes, newScenes
      ensures r == |currentScenes.scenes| + |newScenes.scenes|
      ensures r == 0 <==> currentScenes.scenes == [] && newScenes.scenes == []
    {
      currentScenes.GetSceneCount() + newScenes.GetSceneCount()
    }

    // -------------------------------------------------------- lookups

    /** HasScene(id): either set holds a scene with that id. */
    method HasSceneWithId(id: nat) returns (found: bool)
      ensures found <==> HasId(currentScenes.scenes, id) || HasId(newScenes.scenes, id)
    {
      found := currentScenes.HasSceneWithId(id);
      if !found {
        found := newScenes.HasSceneWithId(id);
      }
    }

    /** HasScene(name): either set holds a scene with that name. */
    method HasSceneNamed(name: string) returns (found: bool)
      ensures found <==> HasName(currentScenes.scenes, name) || HasName(newScenes.scenes, name)
    {
      found := currentScenes.HasSceneNamed(name);
      if !found {
        found := newScenes.HasSceneNamed(name);
      }
    }

    /** HasScene(scene): either set holds the scene itself. */
    method HasScene(scene: Scene?) returns (found: bool)
      ensures found <==> scene != null && (scene in currentScenes.scenes || scene in newScenes.scenes)
    {
      found := currentScenes.HasScene(scene);
      if !found {
        found := newScenes.HasScene(scene);
      }
    }

    /** GetScene(id): a Current scene with that id wins over a New one; null when neither set has one. */
    method GetSceneById(id: nat) returns (scene: Scene?)
      ensures scene != null ==> scene.id == id && (scene in currentScenes.scenes || scene in newScenes.scenes)
      ensures scene == null <==> !HasId(currentScenes.scenes, id) && !HasId(newScenes.scenes, id)
      ensures HasId(currentScenes.scenes, id) ==> scene in currentScenes.scenes
      ensures scene == if HasId(currentScenes.scenes, id) then currentScenes.scenes[FirstWithId(currentScenes.scenes, id)]
                       else if HasId(newScenes.scenes, id) then newScenes.scenes[FirstWithId(newScenes.scenes, id)]
                       else null
    {
      scene := currentScenes.GetSceneById(id);
      if scene == null {
        scene := newScenes.GetSceneById(id);
      }
    }

    /** GetScene(name): a Current scene with that name wins over a New one; null when neither set has one. */
    method GetSceneNamed(name: string) returns (scene: Scene?)
      ensures scene != null ==> scene.name == name && (scene in currentScenes.scenes || scene in newScenes.scenes)
      ensures scene == null <==> !HasName(currentScenes.scenes, name) && !HasName(newScenes.scenes, name)
      ensures HasName(currentScenes.scenes, name) ==> scene in currentScenes.scenes
      ensures scene == if HasName(currentScenes.scenes, name) then currentScenes.scenes[FirstWithName(currentScenes.scenes, name)]
                       else if HasName(newScenes.scenes, name) then newScenes.scenes[FirstWithName(newScenes.scenes, name)]
                       else null
    {
      scene := currentScenes.GetSceneNamed(name);
      if scene == null {
        scene := newScenes.GetSceneNamed(name);
      }
    }

    /** GetSceneAt(index): the same index is tried in the Current set, then in the New set. */
    method GetSceneAt(index: nat) returns (scene: Scene?)
      ensures scene == SceneAtAsWritten(currentScenes.scenes, newScenes.scenes, index)
    {
      scene := currentScenes.GetSceneAt(index);
      if scene == null {
        scene := newScenes.GetSceneAt(index);
      }
    }

    /** RemoveScene(id): looks the scene up like GetScene(id); neither set changes. */
    method RemoveSceneById(id: nat) returns (scene: Scene?)
      ensures scene != null ==> scene.id == id && (scene in currentScenes.scenes || scene in newScenes.scenes)
      ensures scene == null <==> !HasId(currentScenes.scenes, id) && !HasId(newScenes.scenes, id)
      ensures scene == if HasId(currentScenes.scenes, id) then currentScenes.scenes[FirstWithId(currentScenes.scenes, id)]
                       else if HasId(newScenes.scenes, id) then newScenes.scenes[FirstWithId(newScenes.scenes, id)]
                       else null
    {
      scene := currentScenes.RemoveSceneById(id);
      if scene == null {
        scene := newScenes.RemoveSceneById(id);
      }
    }

    /** RemoveScene(name): looks the scene up like GetScene(name); neither set changes. */
    method RemoveSceneNamed(name: string) returns (scene: Scene?)
      ensures scene != null ==> scene.name == name && (scene in currentScenes.scenes || scene in newScenes.scenes)
      ensures scene == null <==> !HasName(currentScenes.scenes, name) && !HasName(newScenes.scenes, name)
      ensures scene == if HasName(currentScenes.scenes, name) then currentScenes.scenes[FirstWithName(currentScenes.scenes, name)]
                       else if HasName(newScenes.scenes, name) then newScenes.scenes[FirstWithName(newScenes.scenes, name)]
                       else null
    {
      scene := currentScenes.RemoveSceneNamed(name);
      if scene == null {
        scene := newScenes.RemoveSceneNamed(name);
      }
    }

    /** RemoveScene(scene): returns the scene when either set holds it; neither set changes. */
    method RemoveScene(scene: Scene?) returns (removed: Scene?)
      ensures removed == (if scene != null && (scene in currentScenes.scenes || scene in newScenes.scenes) then scene else null)
    {
      removed := currentScenes.RemoveScene(scene);
      if removed == null {
        removed := newScenes.RemoveScene(scene);
      }
    }

    // ------------------------------------------------ adding, removing

    /** SendSceneRequest: publish a "scene_info" request and remember its id. */
    method SendSceneRequest(requestId: int)
      modifies this`sceneRequestId, this`publishedRequests
      ensures sceneRequestId == requestId && publishedRequests == old(publishedRequests) + [requestId]
    {
      sceneRequestId := requestId;
      publishedRequests := publishedRequests + [requestId];
    }

    /**
     * AddScene: the scene joins the New set (whether or not the Current set
     * already holds it); a snapshot is requested unless one is outstanding.
     */
    method AddScene(scene: Scene?, requestId: int)
      requires Valid()
      modifies newScenes`scenes, this`sceneRequestId, this`publishedRequests
      ensures Valid()
      ensures newScenes.scenes == if scene == null then old(newScenes.scenes) else AddIfAbsent(old(newScenes.scenes), scene)
      ensures old(sceneRequestId) < 0 ==> sceneRequestId == requestId && publishedRequests == old(publishedRequests) + [requestId]
      ensures old(sceneRequestId) >= 0 ==> sceneRequestId == old(sceneRequestId) && publishedRequests == old(publishedRequests)
    {
      newScenes.AddScene(scene);
      if sceneRequestId < 0 {
        SendSceneRequest(requestId);
      }
    }

    /** RemoveSceneAt: the same index is tried in the Current set, then in the New set. */
    method RemoveSceneAt(index: nat) returns (scene: Scene?)
      requires Valid()
      modifies currentScenes`scenes, newScenes`scenes
      ensures Valid()
      ensures scene == SceneAtAsWritten(old(currentScenes.scenes), old(newScenes.scenes), index)
      ensures index < |old(currentScenes.scenes)| ==>
                currentScenes.scenes == old(currentScenes.scenes)[..index] + old(currentScenes.scenes)[index + 1..]
                && newScenes.scenes == old(newScenes.scenes)
      ensures |old(currentScenes.scenes)| <= index < |old(newScenes.scenes)| ==>
                currentScenes.scenes == old(currentScenes.scenes)
                && newScenes.scenes == old(newScenes.scenes)[..index] + old(newScenes.scenes)[index + 1..]
      ensures index >= |old(currentScenes.scenes)| && index >= |old(newScenes.scenes)| ==>
                currentScenes.scenes == old(currentScenes.scenes) && newScenes.scenes == old(newScenes.scenes)
    {
      scene := currentScenes.RemoveSceneAt(index);
      if scene == null {
        scene := newScenes.RemoveSceneAt(index);
      }
    }

    /** RemoveScenes: both sets drop every scene and every pending message. */
    method RemoveScenes()
      requires Valid()
      modifies currentScenes, newScenes
      ensures Valid()
      ensures currentScenes.scenes == [] && newScenes.scenes == []
      ensures currentScenes.NoPendingMessages() && newScenes.NoPendingMessages()
      ensures currentScenes.approvedRemovals == old(currentScenes.approvedRemovals)
      ensures newScenes.approvedRemovals == old(newScenes.approvedRemovals)
      ensures newScenes.sceneMsg == old(newScenes.sceneMsg)
      ensures sceneRequestId == old(sceneRequestId) && publishedRequests == old(publishedRequests)
      ensures currentScenes.timePosesReceived == old(currentScenes.timePosesReceived)
      ensures newScenes.timePosesReceived == old(newScenes.timePosesReceived)
    {
      currentScenes.Clear();
      newScenes.Clear();
    }

    // ------------------------------------------- promotion, demotion

    /** PromoteNewScenes: each New scene, in order, is added to the Current set; the New set is cleared. */
    method PromoteNewScenes()
      requires Valid()
      modifies currentScenes`scenes, newScenes
      ensures Valid()
      ensures currentScenes.scenes == AddAll(old(currentScenes.scenes), old(newScenes.scenes))
      ensures newScenes.scenes == [] && newScenes.NoPendingMessages()
      ensures newScenes.approvedRemovals == old(newScenes.approvedRemovals) && newScenes.sceneMsg == old(newScenes.sceneMsg)
      ensures newScenes.timePosesReceived == old(newScenes.timePosesReceived)
    {
      var count := newScenes.GetSceneCount();
      var i := 0;
      while i < count
        invariant 0 <= i <= count == |newScenes.scenes|
        invariant unchanged(newScenes)
        invariant currentScenes.Valid()
        invariant currentScenes.scenes == AddAll(old(currentScenes.scenes), newScenes.scenes[..i])
      {
        var scene := newScenes.GetSceneAt(i);
        currentScenes.AddScene(scene);
        assert newScenes.scenes[..i + 1][..i] == newScenes.scenes[..i];
        i := i + 1;
      }
      assert newScenes.scenes[..i] == newScenes.scenes;
      newScenes.Clear();
    }

    /** The loop of DemoteCurrentScenes: each Current scene, in order, joins the empty New set and is emptied. */
    method MoveCurrentToNew(ghost pool: seq<Scene>)
      requires Valid() && newScenes.scenes == [] && newScenes.NoPendingMessages()
      requires forall s :: s in currentScenes.scenes ==> s in pool
      modifies newScenes`scenes, pool
      ensures Valid()
      ensures newScenes.scenes == currentScenes.scenes && newScenes.NoPendingMessages()
      ensures newScenes.approvedRemovals == old(newScenes.approvedRemovals) && newScenes.sceneMsg == old(newScenes.sceneMsg)
      ensures forall s :: s in currentScenes.scenes ==> s.graph == old(s.graph).(nodes := map[])
    {
      var moving := currentScenes.scenes;
      assert Distinct(moving);
      var i := 0;
      while i < |moving|
        invariant 0 <= i <= |moving| && Distinct(moving)
        invariant Valid() && unchanged(this, currentScenes)
        invariant newScenes.scenes == AddAll([], moving[..i])
        invariant forall j :: 0 <= j < i ==> moving[j].graph == old(moving[j].graph).(nodes := map[])
        invariant forall j :: i <= j < |moving| ==> moving[j].graph == old(moving[j].graph)
      {
        label LoopStart:
        var scene := moving[i];
        assert scene in pool;
        MoveToNew(scene);
        forall j | 0 <= j < |moving| && j != i
          ensures moving[j].graph == old@LoopStart(moving[j].graph)
        {
          assert moving[j] != scene;
        }
        assert moving[..i + 1][..i] == moving[..i];
        i := i + 1;
      }
      assert moving[..i] == moving;
      AddAllIntoEmpty(moving);
      forall s | s in moving
        ensures s.graph == old(s.graph).(nodes := map[])
      {
        var j :| 0 <= j < |moving| && moving[j] == s;
      }
    }

    /** One step of MoveCurrentToNew: the scene joins the New set and its graph is emptied. */
    method MoveToNew(scene: Scene)
      requires Valid()
      modifies newScenes`scenes, scene
      ensures Valid()
      ensures newScenes.scenes == AddIfAbsent(old(newScenes.scenes), scene)
      ensures scene.graph == old(scene.graph).(nodes := map[])
    {
      newScenes.AddScene(scene);
      scene.Clear();
    }

    /**
     * DemoteCurrentScenes: promote first (keeping scene order), then move
     * every Current scene back to the New set, emptying each scene's graph.
     * Both sets' buffered messages are dropped.
     */
    method DemoteCurrentScenes()
      requires Valid()
      modifies currentScenes, newScenes, currentScenes.scenes, newScenes.scenes
      ensures Valid()
      ensures newScenes.scenes == AddAll(old(currentScenes.scenes), old(newScenes.scenes)) && currentScenes.scenes == []
      ensures currentScenes.NoPendingMessages() && newScenes.NoPendingMessages()
      ensures forall s :: s in old(currentScenes.scenes) || s in old(newScenes.scenes) ==> s.graph == old(s.graph).(nodes := map[])
      ensures currentScenes.approvedRemovals == old(currentScenes.approvedRemovals)
      ensures newScenes.approvedRemovals == old(newScenes.approvedRemovals) && newScenes.sceneMsg == old(newScenes.sceneMsg)
      ensures currentScenes.timePosesReceived == old(currentScenes.timePosesReceived)
      ensures newScenes.timePosesReceived == old(newScenes.timePosesReceived)
    {
      PromoteNewScenes();
      forall s | s in old(currentScenes.scenes) || s in old(newScenes.scenes) || s in currentScenes.scenes
        ensures s in currentScenes.scenes <==> s in old(currentScenes.scenes) || s in old(newScenes.scenes)
      {
        AddAllMembers(old(currentScenes.scenes), old(newScenes.scenes), s);
      }
      MoveCurrentToNew(old(currentScenes.scenes) + old(newScenes.scenes));
      ghost var moved := newScenes.scenes;
      currentScenes.Clear();
      assert newScenes.scenes == moved;
    }

    /**
     * UpdateScenes: tick the Current set; if a snapshot arrived since the
     * last update, tick the New set too, promote its scenes and reset the
     * flag.
     */
    method UpdateScenes()
      requires Valid()
      modifies currentScenes, newScenes, currentScenes.scenes, newScenes.scenes, this`promotionNeeded
      ensures Valid() && !promotionNeeded
      ensures old(promotionNeeded) ==>
                currentScenes.scenes == AddAll(old(currentScenes.scenes), old(newScenes.scenes))
                && newScenes.scenes == [] && newScenes.NoPendingMessages()
      ensures !old(promotionNeeded) ==>
                currentScenes.scenes == old(currentScenes.scenes) && unchanged(newScenes)
      ensures currentScenes.NoPendingMessages()
      ensures forall s :: s in old(currentScenes.scenes) || s in old(newScenes.scenes) ==>
                s.graph == AfterUpdate(old(s.graph), s in old(currentScenes.scenes),
                                       old(promotionNeeded) && s in old(newScenes.scenes),
                                       old(currentScenes.PendingTick()), old(newScenes.PendingTick()))
      ensures currentScenes.approvedRemovals == old(currentScenes.approvedRemovals)
      ensures newScenes.approvedRemovals == old(newScenes.approvedRemovals)
      ensures currentScenes.sceneMsg == old(currentScenes.sceneMsg) && newScenes.sceneMsg == old(newScenes.sceneMsg)
      ensures currentScenes.timePosesReceived == old(currentScenes.timePosesReceived)
      ensures newScenes.timePosesReceived
              == if old(promotionNeeded) && |old(newScenes.scenes)| > 0 then old(newScenes.TickTime()) else old(newScenes.timePosesReceived)
    {
      currentScenes.UpdateScenes();
      if promotionNeeded {
        TickAndPromoteNewScenes();
        promotionNeeded := false;
      }
    }

    /** UpdateScenes' second half: tick the New set, then promote its scenes. */
    method TickAndPromoteNewScenes()
      requires Valid()
      modifies currentScenes`scenes, newScenes, newScenes.scenes
      ensures Valid()
      ensures currentScenes.scenes == AddAll(old(currentScenes.scenes), old(newScenes.scenes))
      ensures newScenes.scenes == [] && newScenes.NoPendingMessages()
      ensures forall s :: s in old(newScenes.scenes) ==> s.graph == TickGraph(old(s.graph), old(newScenes.PendingTick()))
      ensures currentScenes.approvedRemovals == old(currentScenes.approvedRemovals)
      ensures newScenes.approvedRemovals == old(newScenes.approvedRemovals) && newScenes.sceneMsg == old(newScenes.sceneMsg)
      ensures newScenes.timePosesReceived
              == if |old(newScenes.scenes)| > 0 then old(newScenes.TickTime()) else old(newScenes.timePosesReceived)
    {
      newScenes.UpdateScenes();
      PromoteNewScenes();
    }

    // ------------------------------------------------------ protocol

    /** OnRequest: an "entity_delete" request records the entity name under its (unsigned) id. */
    method OnRequest(msg: RequestMsg)
      modifies this`requestedRemovals
      ensures requestedRemovals == if msg.request == "entity_delete"
                                   then old(requestedRemovals)[ToUInt32(msg.id) := msg.data]
                                   else old(requestedRemovals)
    {
      if msg.request == "entity_delete" {
        requestedRemovals := requestedRemovals[ToUInt32(msg.id) := msg.data];
      }
    }

    /** OnRemovalUpdate: an approved removal goes to both sets. */
    method OnRemovalUpdate(name: string)
      requires Valid()
      modifies currentScenes`approvedRemovals, newScenes`approvedRemovals
      ensures Valid()
      ensures currentScenes.approvedRemovals
              == if |currentScenes.scenes| > 0 then old(currentScenes.approvedRemovals) + [name] else old(currentScenes.approvedRemovals)
      ensures newScenes.approvedRemovals
              == if |newScenes.scenes| > 0 then old(newScenes.approvedRemovals) + [name] else old(newScenes.approvedRemovals)
    {
      currentScenes.OnRemovalUpdate(name);
      newScenes.OnRemovalUpdate(name);
    }

    /**
     * OnRemovalResponse: on "success" the name recorded for the id is
     * approved (the empty name when none was recorded, since the lookup
     * default-inserts); the record is dropped either way.
     */
    method OnRemovalResponse(msg: ResponseMsg)
      requires Valid()
      modifies this`requestedRemovals, currentScenes`approvedRemovals, newScenes`approvedRemovals
      ensures Valid()
      ensures requestedRemovals == old(requestedRemovals) - {ToUInt32(msg.id)}
      ensures msg.response == "success" ==>
                var name := if ToUInt32(msg.id) in old(requestedRemovals) then old(requestedRemovals)[ToUInt32(msg.id)] else "";
                && currentScenes.approvedRemovals
                   == (if |currentScenes.scenes| > 0 then old(currentScenes.approvedRemovals) + [name] else old(currentScenes.approvedRemovals))
                && newScenes.approvedRemovals
                   == (if |newScenes.scenes| > 0 then old(newScenes.approvedRemovals) + [name] else old(newScenes.approvedRemovals))
      ensures msg.response != "success" ==>
                currentScenes.approvedRemovals == old(currentScenes.approvedRemovals)
                && newScenes.approvedRemovals == old(newScenes.approvedRemovals)
    {
      var requestId := ToUInt32(msg.id);
      if msg.response == "success" {
        var name := if requestId in requestedRemovals then requestedRemovals[requestId] else "";
        OnRemovalUpdate(name);
      }
      requestedRemovals := requestedRemovals - {requestId};
    }

    /** OnSceneResponse: hand the snapshot to the New set and mark a promotion as due. */
    method OnSceneResponse(msg: ResponseMsg)
      requires Valid()
      modifies newScenes`sceneMsg, newScenes`sceneReceived, this`promotionNeeded, this`sceneRequestId
      ensures Valid()
      ensures newScenes.sceneMsg == msg.serializedData && newScenes.sceneReceived
      ensures promotionNeeded && sceneRequestId == -1
    {
      newScenes.SetSceneData(msg.serializedData);
      promotionNeeded := true;
      sceneRequestId := -1;
    }

    /**
     * OnResponse: a response whose id equals the stored request id (even
     * -1, when no request is outstanding) is the snapshot; otherwise an
     * "entity_delete" response settles a removal; anything else is ignored.
     */
    method OnResponse(msg: ResponseMsg)
      requires Valid()
      modifies this`requestedRemovals, currentScenes`approvedRemovals, newScenes`approvedRemovals
      modifies newScenes`sceneMsg, newScenes`sceneReceived, this`promotionNeeded, this`sceneRequestId
      ensures Valid()
      ensures msg.id == old(sceneRequestId) ==>
                && newScenes.sceneMsg == msg.serializedData && newScenes.sceneReceived
                && promotionNeeded && sceneRequestId == -1
                && requestedRemovals == old(requestedRemovals)
                && currentScenes.approvedRemovals == old(currentScenes.approvedRemovals)
                && newScenes.approvedRemovals == old(newScenes.approvedRemovals)
      ensures msg.id != old(sceneRequestId) ==>
                && newScenes.sceneMsg == old(newScenes.sceneMsg) && newScenes.sceneReceived == old(newScenes.sceneReceived)
                && promotionNeeded == old(promotionNeeded) && sceneRequestId == old(sceneRequestId)
      ensures msg.id != old(sceneRequestId) && msg.request == "entity_delete" ==>
                requestedRemovals == old(requestedRemovals) - {ToUInt32(msg.id)}
      ensures msg.id != old(sceneRequestId) && msg.request == "entity_delete" && msg.response == "success" ==>
                var name := if ToUInt32(msg.id) in old(requestedRemovals) then old(requestedRemovals)[ToUInt32(msg.id)] else "";
                && currentScenes.approvedRemovals
                   == (if |currentScenes.scenes| > 0 then old(currentScenes.approvedRemovals) + [name] else old(currentScenes.approvedRemovals))
                && newScenes.approvedRemovals
                   == (if |newScenes.scenes| > 0 then old(newScenes.approvedRemovals) + [name] else old(newScenes.approvedRemovals))
      ensures msg.id != old(sceneRequestId) && msg.request == "entity_delete" && msg.response != "success" ==>
                currentScenes.approvedRemovals == old(currentScenes.approvedRemovals)
                && newScenes.approvedRemovals == old(newScenes.approvedRemovals)
      ensures msg.id != old(sceneRequestId) && msg.request != "entity_delete" ==>
                && requestedRemovals == old(requestedRemovals)
                && currentScenes.approvedRemovals == old(currentScenes.approvedRemovals)
                && newScenes.approvedRemovals == old(newScenes.approvedRemovals)
    {
      if msg.id == sceneRequestId {
        OnSceneResponse(msg);
      } else if msg.request == "entity_delete" {
        OnRemovalResponse(msg);
      }
    }

    /**
     * OnSceneUpdate: the simulation's scene changed; every scene is demoted
     * and a fresh snapshot is requested.  A promotion already due stays due.
     */
    method OnSceneUpdate(requestId: int)
      requires Valid()
      modifies currentScenes, newScenes, currentScenes.scenes, newScenes.scenes
      modifies this`sceneRequestId, this`publishedRequests
      ensures Valid()
      ensures newScenes.scenes == AddAll(old(currentScenes.scenes), old(newScenes.scenes)) && currentScenes.scenes == []
      ensures forall s :: s in old(currentScenes.scenes) || s in old(newScenes.scenes) ==> s.graph == old(s.graph).(nodes := map[])
      ensures currentScenes.NoPendingMessages() && newScenes.NoPendingMessages()
      ensures sceneRequestId == requestId && publishedRequests == old(publishedRequests) + [requestId]
      ensures promotionNeeded == old(promotionNeeded)
      ensures currentScenes.approvedRemovals == old(currentScenes.approvedRemovals)
      ensures newScenes.approvedRemovals == old(newScenes.approvedRemovals) && newScenes.sceneMsg == old(newScenes.sceneMsg)
      ensures currentScenes.timePosesReceived == old(currentScenes.timePosesReceived)
      ensures newScenes.timePosesReceived == old(newScenes.timePosesReceived)
    {
      DemoteCurrentScenes();
      sceneRequestId := -1;
      SendSceneRequest(requestId);
    }

    // ------------------------------------------------------ buffering

    /** OnLightUpdate: forwarded to both sets. */
    method OnLightUpdate(msg: LightMsg)
      requires Valid()
      modifies currentScenes`lightMsgs, newScenes`lightMsgs
      ensures Valid()
      ensures currentScenes.lightMsgs == if |currentScenes.scenes| > 0 then old(currentScenes.lightMsgs) + [msg] else old(currentScenes.lightMsgs)
      ensures newScenes.lightMsgs == if |newScenes.scenes| > 0 then old(newScenes.lightMsgs) + [msg] else old(newScenes.lightMsgs)
    {
      currentScenes.OnLightUpdate(msg);
      newScenes.OnLightUpdate(msg);
    }

    /** OnModelUpdate: forwarded to both sets. */
    method OnModelUpdate(msg: ModelMsg)
      requires Valid()
      modifies currentScenes`modelMsgs, newScenes`modelMsgs
      ensures Valid()
      ensures currentScenes.modelMsgs == if |currentScenes.scenes| > 0 then old(currentScenes.modelMsgs) + [msg] else old(currentScenes.modelMsgs)
      ensures newScenes.modelMsgs == if |newScenes.scenes| > 0 then old(newScenes.modelMsgs) + [msg] else old(newScenes.modelMsgs)
    {
      currentScenes.OnModelUpdate(msg);
      newScenes.OnModelUpdate(msg);
    }

    /** OnJointUpdate: forwarded to both sets. */
    method OnJointUpdate(msg: JointMsg)
      requires Valid()
      modifies currentScenes`jointMsgs, newScenes`jointMsgs
      ensures Valid()
      ensures currentScenes.jointMsgs == if |currentScenes.scenes| > 0 then old(currentScenes.jointMsgs) + [msg] else old(currentScenes.jointMsgs)
      ensures newScenes.jointMsgs == if |newScenes.scenes| > 0 then old(newScenes.jointMsgs) + [msg] else old(newScenes.jointMsgs)
    {
      currentScenes.OnJointUpdate(msg);
      newScenes.OnJointUpdate(msg);
    }

    /** OnVisualUpdate: forwarded to both sets. */
    method OnVisualUpdate(msg: VisualMsg)
      requires Valid()
      modifies currentScenes`visualMsgs, newScenes`visualMsgs
      ensures Valid()
      ensures currentScenes.visualMsgs == if |currentScenes.scenes| > 0 then old(currentScenes.visualMsgs) + [msg] else old(currentScenes.visualMsgs)
      ensures newScenes.visualMsgs == if |newScenes.scenes| > 0 then old(newScenes.visualMsgs) + [msg] else old(newScenes.visualMsgs)
    {
      currentScenes.OnVisualUpdate(msg);
      newScenes.OnVisualUpdate(msg);
    }

    /** OnSensorUpdate: forwarded to both sets. */
    method OnSensorUpdate(msg: SensorMsg)
      requires Valid()
      modifies currentScenes`sensorMsgs, newScenes`sensorMsgs
      ensures Valid()
      ensures currentScenes.sensorMsgs == if |currentScenes.scenes| > 0 then old(currentScenes.sensorMsgs) + [msg] else old(currentScenes.sensorMsgs)
      ensures newScenes.sensorMsgs == if |newScenes.scenes| > 0 then old(newScenes.sensorMsgs) + [msg] else old(newScenes.sensorMsgs)
    {
      currentScenes.OnSensorUpdate(msg);
      newScenes.OnSensorUpdate(msg);
    }

    /** OnPoseUpdate: forwarded to both sets, which buffer it even when they hold no scene. */
    method OnPoseUpdate(batch: PosesStampedMsg)
      requires Valid()
      modifies currentScenes`timePosesReceived, currentScenes`poseMsgs, currentScenes`posesMsgs
      modifies newScenes`timePosesReceived, newScenes`poseMsgs, newScenes`posesMsgs
      ensures Valid()
      ensures currentScenes.timePosesReceived == Time(batch.time.sec, batch.time.nsec)
      ensures currentScenes.poseMsgs == OverlayPoses(old(currentScenes.poseMsgs), batch.poses)
      ensures newScenes.posesMsgs == old(newScenes.posesMsgs) + [batch]
      ensures newScenes.timePosesReceived == old(newScenes.timePosesReceived)
    {
      currentScenes.OnPoseUpdate(batch);
      newScenes.OnPoseUpdate(batch);
    }
  }
}
