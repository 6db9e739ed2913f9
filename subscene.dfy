/**
 * SubSceneManager of src/SceneManager.cc and its two specialisations,
 * CurrentSceneManager and NewSceneManager.  One class carries a `variant`
 * tag instead of the C++ virtual overrides: OnPoseUpdate, ClearMessages,
 * ProcessMessages and ProcessPoses dispatch on it.
 *
 * A scene set holds an ordered list of distinct scenes and the messages
 * buffered for them since the last tick.  A tick (UpdateScenes) makes every
 * scene, in list order, the active scene and applies the buffers to it
 * (lights, models, joints, visuals, sensors, then poses), then empties the
 * buffers.
 */
module SubScenes {
  import opened Wrappers
  import opened Msgs
  import opened Convert
  import opened Scenes
  import opened GraphRules
  import opened GraphFacts

  /** Which specialisation a scene set is. */
  datatype Variant = CurrentSet | NewSet

  predicate Distinct<T(==)>(s: seq<T>) {
    forall i, j :: 0 <= i < j < |s| ==> s[i] != s[j]
  }

  // ------------------------------------------------------------ scene list

  /** The list after SubSceneManager::AddScene of a non-null scene: duplicates are refused. */
  function AddIfAbsent(scenes: seq<Scene>, s: Scene): (r: seq<Scene>)
    ensures Distinct(scenes) ==> Distinct(r)
    ensures s in r
  {
    if s in scenes then scenes else scenes + [s]
  }

  /** AddScene of each scene of `xs`, in order, as PromoteNewScenes and DemoteCurrentScenes do. */
  function AddAll(scenes: seq<Scene>, xs: seq<Scene>): (r: seq<Scene>)
    ensures Distinct(scenes) ==> Distinct(r)
  {
    if |xs| == 0 then scenes else AddIfAbsent(AddAll(scenes, xs[..|xs| - 1]), xs[|xs| - 1])
  }

  /** Promotion loses no scene and invents none. */
  lemma {:induction false} AddAllMembers(cur: seq<Scene>, xs: seq<Scene>, s: Scene)
    ensures s in AddAll(cur, xs) <==> s in cur || s in xs
  {
    if |xs| > 0 {
      AddAllMembers(cur, xs[..|xs| - 1], s);
      assert xs == xs[..|xs| - 1] + [xs[|xs| - 1]];
    }
  }

  /** Adding distinct scenes to an empty list keeps them all, in order. */
  lemma {:induction false} AddAllIntoEmpty(xs: seq<Scene>)
    requires Distinct(xs)
    ensures AddAll([], xs) == xs
  {
    if |xs| > 0 {
      var init := xs[..|xs| - 1];
      assert Distinct(init);
      AddAllIntoEmpty(init);
      assert xs[|xs| - 1] !in init;
      assert xs == init + [xs[|xs| - 1]];
    }
  }

  /** The scenes of `xs` that are not in `present`, in their order in `xs`. */
  function Missing(xs: seq<Scene>, present: seq<Scene>): seq<Scene> {
    if |xs| == 0 then []
    else Missing(xs[..|xs| - 1], present) + (if xs[|xs| - 1] in present then [] else [xs[|xs| - 1]])
  }

  lemma {:induction false} MissingMembers(xs: seq<Scene>, present: seq<Scene>, s: Scene)
    ensures s in Missing(xs, present) <==> s in xs && s !in present
  {
    if |xs| > 0 {
      MissingMembers(xs[..|xs| - 1], present, s);
      assert xs == xs[..|xs| - 1] + [xs[|xs| - 1]];
    }
  }

  /**
   * Adding a list of distinct scenes one by one appends, in their original
   * order, exactly those not already present.
   */
  lemma {:induction false} AddAllAppendsMissing(cur: seq<Scene>, xs: seq<Scene>)
    requires Distinct(xs)
    ensures AddAll(cur, xs) == cur + Missing(xs, cur)
  {
    if |xs| > 0 {
      var init, last := xs[..|xs| - 1], xs[|xs| - 1];
      assert Distinct(init);
      AddAllAppendsMissing(cur, init);
      assert last !in init;
      MissingMembers(init, cur, last);
      assert last in AddAll(cur, init) <==> last in cur;
    }
  }

  /** Some scene in the list has that id. */
  predicate HasId(scenes: seq<Scene>, id: nat) {
    exists i :: 0 <= i < |scenes| && scenes[i].id == id
  }

  /** Some scene in the list has that name. */
  predicate HasName(scenes: seq<Scene>, name: string) {
    exists i :: 0 <= i < |scenes| && scenes[i].name == name
  }

  // ------------------------------------------------------------ pose map

  /** Every entry of a name-keyed pose map is the pose for that name. */
  predicate PoseKeysMatch(pm: map<string, PoseMsg>) {
    forall n :: n in pm ==> pm[n].name == n
  }

  /** CurrentSceneManager::OnPoseUpdate's loop: each pose replaces the entry for its name. */
  function OverlayPoses(pm: map<string, PoseMsg>, ps: seq<PoseMsg>): (r: map<string, PoseMsg>)
    ensures PoseKeysMatch(pm) ==> PoseKeysMatch(r)
  {
    if |ps| == 0 then pm else OverlayPoses(pm, ps[..|ps| - 1])[ps[|ps| - 1].name := ps[|ps| - 1]]
  }

  /** The map holds the last pose received for each name. */
  lemma {:induction false} OverlayKeepsLastPose(pm: map<string, PoseMsg>, ps: seq<PoseMsg>, i: nat)
    requires i < |ps|
    requires forall j :: i < j < |ps| ==> ps[j].name != ps[i].name
    ensures ps[i].name in OverlayPoses(pm, ps) && OverlayPoses(pm, ps)[ps[i].name] == ps[i]
  {
    if i < |ps| - 1 {
      OverlayKeepsLastPose(pm, ps[..|ps| - 1], i);
    }
  }

  /** The map's names are the old ones plus those received; names not received keep their pose. */
  lemma {:induction false} OverlayKeepsOthers(pm: map<string, PoseMsg>, ps: seq<PoseMsg>, n: string)
    ensures n in OverlayPoses(pm, ps) <==> n in pm || exists j :: 0 <= j < |ps| && ps[j].name == n
    ensures n in pm && (forall j :: 0 <= j < |ps| ==> ps[j].name != n) ==> OverlayPoses(pm, ps)[n] == pm[n]
  {
    if |ps| > 0 {
      var init := ps[..|ps| - 1];
      OverlayKeepsOthers(pm, init, n);
      assert forall j :: 0 <= j < |init| ==> init[j] == ps[j];
    }
  }

  /** The pose map restricted to the names not in `keys`. */
  function PosesOutside(pm: map<string, PoseMsg>, keys: set<string>): map<string, PoseMsg> {
    map n | n in pm && n !in keys :: pm[n]
  }

  /** Applying one more entry of a name-keyed pose map is applying the pose it holds. */
  lemma PoseMapStep(nodes: NodeMap, pm: map<string, PoseMsg>, remaining: set<string>, n: string)
    requires PoseKeysMatch(pm) && n in remaining && n in pm
    ensures ProcessPose(ApplyPoseMap(nodes, PosesOutside(pm, remaining)), pm[n])
         == ApplyPoseMap(nodes, PosesOutside(pm, remaining - {n}))
  {
  }

  // ------------------------------------------------------------ one tick

  /** Everything a tick applies to each scene of a set, read before the tick. */
  datatype TickInput = TickInput(
    variant: Variant,
    pending: Pending,
    poseMap: map<string, PoseMsg>,
    poseBatches: seq<PosesStampedMsg>,
    snapshot: SceneMsg,
    time: Time)

  /**
   * SubSceneManager::ProcessMessages on one scene.  Current applies the
   * buffers and then its pose map; New first rebuilds the scene from the
   * snapshot and ends with its pose batches.  Either way the scene's
   * simulation time becomes the pose timestamp.  Only the snapshot can set
   * the ambient and background colours.
   */
  function TickGraph(g: Graph, t: TickInput): (r: Graph)
    ensures r.simTime == t.time
    ensures t.variant == CurrentSet ==> r.ambient == g.ambient && r.background == g.background
    ensures t.variant == NewSet ==>
              && r.ambient == (if t.snapshot.ambient.Some? then Some(OpaqueColor(t.snapshot.ambient.value)) else g.ambient)
              && r.background == (if t.snapshot.background.Some? then Some(OpaqueColor(t.snapshot.background.value)) else g.background)
  {
    match t.variant
    case CurrentSet =>
      g.(nodes := ApplyPoseMap(ApplyStructure(g.nodes, t.pending), t.poseMap), simTime := t.time)
    case NewSet =>
      var rebuilt := ProcessScene(g, t.snapshot);
      rebuilt.(nodes := ApplyPoseBatches(ApplyStructure(rebuilt.nodes, t.pending), t.poseBatches), simTime := t.time)
  }

  /** A scene set's pose buffer after OnPoseUpdate of each batch, in order (Current). */
  function OverlayBatches(pm: map<string, PoseMsg>, bs: seq<PosesStampedMsg>): map<string, PoseMsg> {
    if |bs| == 0 then pm else OverlayPoses(OverlayBatches(pm, bs[..|bs| - 1]), bs[|bs| - 1].poses)
  }

  lemma PoseOverlayStep(nodes: NodeMap, pm: map<string, PoseMsg>, p: PoseMsg)
    ensures ApplyPoseMap(nodes, pm[p.name := p]) == ProcessPose(ApplyPoseMap(nodes, pm), p)
  {
    var l, r := ApplyPoseMap(nodes, pm[p.name := p]), ProcessPose(ApplyPoseMap(nodes, pm), p);
    forall n | n in nodes
      ensures l[n] == r[n]
    {
    }
  }

  /** Keeping only the last pose per name and applying those is the same as applying every pose in order. */
  lemma {:induction false} OverlayMatchesPoseOrder(nodes: NodeMap, pm: map<string, PoseMsg>, ps: seq<PoseMsg>)
    ensures ApplyPoseMap(nodes, OverlayPoses(pm, ps)) == ApplyPoses(ApplyPoseMap(nodes, pm), ps)
  {
    if |ps| > 0 {
      var init, last := ps[..|ps| - 1], ps[|ps| - 1];
      OverlayMatchesPoseOrder(nodes, pm, init);
      PoseOverlayStep(nodes, OverlayPoses(pm, init), last);
    }
  }

  /**
   * The two variants agree on poses: Current's name-keyed buffer, filled by
   * the batches in arrival order, moves each node exactly as New's replay of
   * every batch does.
   */
  lemma {:induction false} CurrentAndNewAgreeOnPoses(nodes: NodeMap, bs: seq<PosesStampedMsg>)
    ensures ApplyPoseMap(nodes, OverlayBatches(map[], bs)) == ApplyPoseBatches(nodes, bs)
  {
    if |bs| == 0 {
      assert ApplyPoseMap(nodes, map[]) == nodes;
    } else {
      var init, last := bs[..|bs| - 1], bs[|bs| - 1];
      CurrentAndNewAgreeOnPoses(nodes, init);
      OverlayMatchesPoseOrder(nodes, OverlayBatches(map[], init), last.poses);
    }
  }

  /** A tick keeps every scene well parented; a New scene is well parented whatever it held before. */
  lemma TickKeepsWellParented(g: Graph, t: TickInput)
    requires t.variant == CurrentSet ==> WellParented(g.nodes)
    ensures WellParented(TickGraph(g, t).nodes)
  {
    match t.variant
    case CurrentSet =>
      var structured := ApplyStructure(g.nodes, t.pending);
      StructureKeepsWellParented(g.nodes, t.pending);
      PoseMapKeepsShape(structured, t.poseMap);
      SameShapeKeepsWellParented(structured, ApplyPoseMap(structured, t.poseMap));
    case NewSet =>
      var rebuilt := ProcessScene(g, t.snapshot);
      SnapshotIsWellParented(g, t.snapshot);
      var structured := ApplyStructure(rebuilt.nodes, t.pending);
      StructureKeepsWellParented(rebuilt.nodes, t.pending);
      PoseBatchesKeepShape(structured, t.poseBatches);
      SameShapeKeepsWellParented(structured, ApplyPoseBatches(structured, t.poseBatches));
  }

  /**
   * A Current tick never drops or retypes a node: in particular a node whose
   * removal was approved survives, since approved removals are never applied.
   */
  lemma CurrentTickKeepsNodes(g: Graph, t: TickInput)
    requires t.variant == CurrentSet
    ensures Extends(g.nodes, TickGraph(g, t).nodes)
  {
    var structured := ApplyStructure(g.nodes, t.pending);
    PoseMapKeepsShape(structured, t.poseMap);
  }

  /** A New tick rebuilds the scene from the snapshot: its nodes do not depend on what the scene held. */
  lemma NewTickForgetsHistory(g1: Graph, g2: Graph, t: TickInput)
    requires t.variant == NewSet
    ensures TickGraph(g1, t).nodes == TickGraph(g2, t).nodes
  {
  }

  // ------------------------------------------------ intended behaviour

  /** The index of the first scene with that id, or the list's length when there is none. */
  function FirstWithId(scenes: seq<Scene>, id: nat): (i: nat)
    ensures i <= |scenes|
    ensures forall j :: 0 <= j < i ==> scenes[j].id != id
    ensures i < |scenes| ==> scenes[i].id == id
    ensures i < |scenes| <==> HasId(scenes, id)
  {
    if |scenes| == 0 then 0
    else if scenes[0].id == id then 0
    else 1 + FirstWithId(scenes[1..], id)
  }

  /** The index of the first scene with that name, or the list's length when there is none. */
  function FirstWithName(scenes: seq<Scene>, name: string): (i: nat)
    ensures i <= |scenes|
    ensures forall j :: 0 <= j < i ==> scenes[j].name != name
    ensures i < |scenes| ==> scenes[i].name == name
    ensures i < |scenes| <==> HasName(scenes, name)
  {
    if |scenes| == 0 then 0
    else if scenes[0].name == name then 0
    else 1 + FirstWithName(scenes[1..], name)
  }

  /**
   * RemoveScene(id) as its name promises: the first scene with that id
   * leaves the list and every other scene stays, in order.
   */
  function RemoveIdIntended(scenes: seq<Scene>, id: nat): (r: seq<Scene>)
    ensures !HasId(scenes, id) ==> r == scenes
    ensures HasId(scenes, id) ==> |r| == |scenes| - 1
    ensures HasId(scenes, id) && Distinct(scenes) ==> scenes[FirstWithId(scenes, id)] !in r
    ensures forall k :: 0 <= k < |scenes| && k != FirstWithId(scenes, id) ==> scenes[k] in r
    ensures HasId(scenes, id) ==> r == scenes[..FirstWithId(scenes, id)] + scenes[FirstWithId(scenes, id) + 1..]
  {
    var i := FirstWithId(scenes, id);
    if i == |scenes| then scenes
    else
      var r := scenes[..i] + scenes[i + 1..];
      assert forall k :: 0 <= k < |scenes| && k != i ==> scenes[k] == r[if k < i then k else k - 1];
      r
  }

  /** A tick that ends by destroying each approved removal, as ProcessRemovals would. */
  function TickWithRemovals(g: Graph, t: TickInput, removals: seq<string>): (r: Graph)
    ensures forall n :: n in removals ==> n !in r.nodes
    ensures forall n :: n in TickGraph(g, t).nodes && n !in removals ==> n in r.nodes && r.nodes[n] == TickGraph(g, t).nodes[n]
    ensures r.nodes.Keys <= TickGraph(g, t).nodes.Keys
  {
    var ticked := TickGraph(g, t);
    ticked.(nodes := map n | n in ticked.nodes && n !in removals :: ticked.nodes[n])
  }

  // ------------------------------------------------------------ the class

  class SubSceneManager {
    const variant: Variant
    var scenes: seq<Scene>
    var activeScene: Scene?
    var lightMsgs: seq<LightMsg>
    var modelMsgs: seq<ModelMsg>
    var jointMsgs: seq<JointMsg>
    var visualMsgs: seq<VisualMsg>
    var sensorMsgs: seq<SensorMsg>
    var approvedRemovals: seq<string>
    var timePosesReceived: Time
    // CurrentSceneManager: the latest pose per node name
    var poseMsgs: map<string, PoseMsg>
    // NewSceneManager: every pose batch, the snapshot and whether one arrived
    var posesMsgs: seq<PosesStampedMsg>
    var sceneMsg: SceneMsg
    var sceneReceived: bool

    /** Between calls: the scenes are distinct, no scene is active, and each variant's own buffers only. */
    ghost predicate Valid()
      reads this
    {
      && Distinct(scenes)
      && activeScene == null
      && PoseKeysMatch(poseMsgs)
      && (variant == CurrentSet ==> posesMsgs == [] && !sceneReceived)
      && (variant == NewSet ==> poseMsgs == map[])
    }

    /** All buffers ClearMessages empties are empty (approved removals are not among them). */
    ghost predicate NoPendingMessages()
      reads this
    {
      && lightMsgs == [] && modelMsgs == [] && jointMsgs == [] && visualMsgs == [] && sensorMsgs == []
      && poseMsgs == map[] && posesMsgs == [] && !sceneReceived
    }

    constructor (variant: Variant)
      ensures this.variant == variant && Valid()
      ensures scenes == [] && NoPendingMessages() && approvedRemovals == []
      ensures timePosesReceived == Time(0, 0) && sceneMsg == EmptyScene
    {
      this.variant := variant;
      scenes := [];
      activeScene := null;
      lightMsgs, modelMsgs, jointMsgs, visualMsgs, sensorMsgs := [], [], [], [], [];
      approvedRemovals := [];
      timePosesReceived := Time(0, 0);
      poseMsgs := map[];
      posesMsgs := [];
      sceneMsg := EmptyScene;
      sceneReceived := false;
    }

    /** The number of scenes in the set; zero exactly when it holds none. */
    function GetSceneCount(): (r: nat)
      reads this
      ensures r == |scenes|
      ensures r == 0 <==> scenes == []
    {
      |scenes|
    }

    function Buffered(): Pending
      reads this
    {
      Pending(lightMsgs, modelMsgs, jointMsgs, visualMsgs, sensorMsgs)
    }

    /** The pose timestamp a tick leaves behind: New takes it from its last batch. */
    function TickTime(): Time
      reads this
    {
      if variant == NewSet then LastPoseTime(posesMsgs, timePosesReceived) else timePosesReceived
    }

    function PendingTick(): TickInput
      reads this
    {
      TickInput(variant, Buffered(), poseMsgs, posesMsgs, sceneMsg, TickTime())
    }

    // -------------------------------------------------------- lookups

    /** HasScene(id): some scene in the list has that id. */
    method HasSceneWithId(id: nat) returns (found: bool)
      ensures found <==> exists i :: 0 <= i < |scenes| && scenes[i].id == id
    {
      found := false;
      var i := 0;
      while i < |scenes|
        invariant 0 <= i <= |scenes|
        invariant forall j :: 0 <= j < i ==> scenes[j].id != id
      {
        if scenes[i].id == id {
          return true;
        }
        i := i + 1;
      }
    }

    /** HasScene(name): some scene in the list has that name. */
    method HasSceneNamed(name: string) returns (found: bool)
      ensures found <==> exists i :: 0 <= i < |scenes| && scenes[i].name == name
    {
      found := false;
      var i := 0;
      while i < |scenes|
        invariant 0 <= i <= |scenes|
        invariant forall j :: 0 <= j < i ==> scenes[j].name != name
      {
        if scenes[i].name == name {
          return true;
        }
        i := i + 1;
      }
    }

    /** HasScene(scene): the scene object itself is in the list (never true of null). */
    method HasScene(scene: Scene?) returns (found: bool)
      ensures found <==> scene != null && scene in scenes
    {
      found := false;
      var i := 0;
      while i < |scenes|
        invariant 0 <= i <= |scenes|
        invariant forall j :: 0 <= j < i ==> scenes[j] != scene
      {
        if scenes[i] == scene {
          return true;
        }
        i := i + 1;
      }
    }

    /** GetScene(id): the first scene in list order with that id, or null. */
    method GetSceneById(id: nat) returns (scene: Scene?)
      ensures scene == null <==> forall i :: 0 <= i < |scenes| ==> scenes[i].id != id
      ensures scene != null ==> exists i :: 0 <= i < |scenes| && scenes[i] == scene && scene.id == id
                                         && forall j :: 0 <= j < i ==> scenes[j].id != id
      ensures scene == if HasId(scenes, id) then scenes[FirstWithId(scenes, id)] else null
    {
      var i := 0;
      while i < |scenes|
        invariant 0 <= i <= |scenes|
        invariant forall j :: 0 <= j < i ==> scenes[j].id != id
      {
        if scenes[i].id == id {
          assert FirstWithId(scenes, id) == i;
          return scenes[i];
        }
        i := i + 1;
      }
      return null;
    }

    /** GetScene(name): the first scene in list order with that name, or null. */
    method GetSceneNamed(name: string) returns (scene: Scene?)
      ensures scene == null <==> forall i :: 0 <= i < |scenes| ==> scenes[i].name != name
      ensures scene != null ==> exists i :: 0 <= i < |scenes| && scenes[i] == scene && scene.name == name
                                         && forall j :: 0 <= j < i ==> scenes[j].name != name
      ensures scene == if HasName(scenes, name) then scenes[FirstWithName(scenes, name)] else null
    {
      var i := 0;
      while i < |scenes|
        invariant 0 <= i <= |scenes|
        invariant forall j :: 0 <= j < i ==> scenes[j].name != name
      {
        if scenes[i].name == name {
          assert FirstWithName(scenes, name) == i;
          return scenes[i];
        }
        i := i + 1;
      }
      return null;
    }

    /** GetSceneAt(index): null for an out-of-range index. */
    method GetSceneAt(index: nat) returns (scene: Scene?)
      ensures index < |scenes| ==> scene == scenes[index]
      ensures index >= |scenes| ==> scene == null
    {
      if index >= |scenes| {
        return null;
      }
      scene := scenes[index];
    }

    // -------------------------------------------- adding and removing

    /** AddScene: a null or already present scene is refused; any other goes to the end. */
    method AddScene(scene: Scene?)
      requires Valid()
      modifies this`scenes
      ensures Valid()
      ensures scene == null ==> scenes == old(scenes)
      ensures scene != null ==> scenes == AddIfAbsent(old(scenes), scene)
    {
      if scene == null {
        return;
      }
      var present := HasScene(scene);
      if present {
        return;
      }
      scenes := scenes + [scene];
    }

    /**
     * RemoveScene(id): returns the first scene with that id, but never takes
     * it out of the list (this method cannot change any state).
     */
    method RemoveSceneById(id: nat) returns (scene: Scene?)
      ensures scene == null <==> forall i :: 0 <= i < |scenes| ==> scenes[i].id != id
      ensures scene != null ==> exists i :: 0 <= i < |scenes| && scenes[i] == scene && scene.id == id
                                         && forall j :: 0 <= j < i ==> scenes[j].id != id
      ensures scene == if HasId(scenes, id) then scenes[FirstWithId(scenes, id)] else null
    {
      scene := GetSceneById(id);
    }

    /** RemoveScene(name): returns the first scene with that name; the list stays as it is. */
    method RemoveSceneNamed(name: string) returns (scene: Scene?)
      ensures scene == null <==> forall i :: 0 <= i < |scenes| ==> scenes[i].name != name
      ensures scene != null ==> exists i :: 0 <= i < |scenes| && scenes[i] == scene && scene.name == name
                                         && forall j :: 0 <= j < i ==> scenes[j].name != name
      ensures scene == if HasName(scenes, name) then scenes[FirstWithName(scenes, name)] else null
    {
      scene := GetSceneNamed(name);
    }

    /** RemoveScene(scene): returns the scene if it is in the list; the list stays as it is. */
    method RemoveScene(scene: Scene?) returns (removed: Scene?)
      ensures removed == (if scene != null && scene in scenes then scene else null)
    {
      var present := HasScene(scene);
      removed := if present then scene else null;
    }

    /** RemoveSceneAt: erases exactly the scene at an in-range index, keeping the others' order. */
    method RemoveSceneAt(index: nat) returns (scene: Scene?)
      requires Valid()
      modifies this`scenes
      ensures Valid()
      ensures index >= |old(scenes)| ==> scene == null && scenes == old(scenes)
      ensures index < |old(scenes)| ==>
                scene == old(scenes)[index] && scenes == old(scenes)[..index] + old(scenes)[index + 1..]
    {
      if index >= |scenes| {
        return null;
      }
      scene := scenes[index];
      scenes := scenes[..index] + scenes[index + 1..];
      assert forall j :: 0 <= j < |scenes| ==> scenes[j] == old(scenes)[if j < index then j else j + 1];
    }

    /** ClearMessages, as each variant overrides it: approved removals and the snapshot stay. */
    method ClearMessages()
      requires Valid()
      modifies this`lightMsgs, this`modelMsgs, this`jointMsgs, this`visualMsgs, this`sensorMsgs
      modifies this`poseMsgs, this`posesMsgs, this`sceneReceived
      ensures Valid() && NoPendingMessages()
    {
      lightMsgs, modelMsgs, jointMsgs, visualMsgs, sensorMsgs := [], [], [], [], [];
      match variant
      case CurrentSet =>
        poseMsgs := map[];
      case NewSet =>
        posesMsgs := [];
        sceneReceived := false;
    }

    /** Clear (and RemoveScenes): drop every scene and every pending message. */
    method Clear()
      requires Valid()
      modifies this`scenes, this`activeScene
      modifies this`lightMsgs, this`modelMsgs, this`jointMsgs, this`visualMsgs, this`sensorMsgs
      modifies this`poseMsgs, this`posesMsgs, this`sceneReceived
      ensures Valid() && scenes == [] && NoPendingMessages()
    {
      scenes := [];
      ClearMessages();
      activeScene := null;
    }

    // ------------------------------------------------------ buffering

    /** OnLightUpdate: buffered only while the set has a scene. */
    method OnLightUpdate(msg: LightMsg)
      modifies this`lightMsgs
      ensures lightMsgs == if |scenes| > 0 then old(lightMsgs) + [msg] else old(lightMsgs)
    {
      if |scenes| > 0 {
        lightMsgs := lightMsgs + [msg];
      }
    }

    /** OnModelUpdate: buffered only while the set has a scene. */
    method OnModelUpdate(msg: ModelMsg)
      modifies this`modelMsgs
      ensures modelMsgs == if |scenes| > 0 then old(modelMsgs) + [msg] else old(modelMsgs)
    {
      if |scenes| > 0 {
        modelMsgs := modelMsgs + [msg];
      }
    }

    /** OnJointUpdate: buffered only while the set has a scene. */
    method OnJointUpdate(msg: JointMsg)
      modifies this`jointMsgs
      ensures jointMsgs == if |scenes| > 0 then old(jointMsgs) + [msg] else old(jointMsgs)
    {
      if |scenes| > 0 {
        jointMsgs := jointMsgs + [msg];
      }
    }

    /** OnVisualUpdate: buffered only while the set has a scene. */
    method OnVisualUpdate(msg: VisualMsg)
      modifies this`visualMsgs
      ensures visualMsgs == if |scenes| > 0 then old(visualMsgs) + [msg] else old(visualMsgs)
    {
      if |scenes| > 0 {
        visualMsgs := visualMsgs + [msg];
      }
    }

    /** OnSensorUpdate: buffered only while the set has a scene. */
    method OnSensorUpdate(msg: SensorMsg)
      modifies this`sensorMsgs
      ensures sensorMsgs == if |scenes| > 0 then old(sensorMsgs) + [msg] else old(sensorMsgs)
    {
      if |scenes| > 0 {
        sensorMsgs := sensorMsgs + [msg];
      }
    }

    /** OnRemovalUpdate: an approved removal is buffered only while the set has a scene. */
    method OnRemovalUpdate(name: string)
      modifies this`approvedRemovals
      ensures approvedRemovals == if |scenes| > 0 then old(approvedRemovals) + [name] else old(approvedRemovals)
    {
      if |scenes| > 0 {
        approvedRemovals := approvedRemovals + [name];
      }
    }

    /**
     * OnPoseUpdate.  Current records the batch's timestamp and keeps the
     * last pose per name; New appends the whole batch.  Neither checks
     * whether the set has scenes.
     */
    method OnPoseUpdate(batch: PosesStampedMsg)
      requires Valid()
      modifies this`timePosesReceived, this`poseMsgs, this`posesMsgs
      ensures Valid()
      ensures variant == CurrentSet ==>
                && timePosesReceived == Time(batch.time.sec, batch.time.nsec)
                && poseMsgs == OverlayPoses(old(poseMsgs), batch.poses)
                && posesMsgs == old(posesMsgs)
      ensures variant == NewSet ==>
                && posesMsgs == old(posesMsgs) + [batch]
                && poseMsgs == old(poseMsgs) && timePosesReceived == old(timePosesReceived)
    {
      match variant
      case CurrentSet =>
        timePosesReceived := Time(batch.time.sec, batch.time.nsec);
        var i := 0;
        while i < |batch.poses|
          invariant 0 <= i <= |batch.poses|
          invariant poseMsgs == OverlayPoses(old(poseMsgs), batch.poses[..i])
          invariant posesMsgs == old(posesMsgs)
          invariant timePosesReceived == Time(batch.time.sec, batch.time.nsec)
        {
          var pose := batch.poses[i];
          poseMsgs := poseMsgs[pose.name := pose];
          assert batch.poses[..i + 1][..i] == batch.poses[..i];
          i := i + 1;
        }
        assert batch.poses[..i] == batch.poses;
      case NewSet =>
        posesMsgs := posesMsgs + [batch];
    }

    /** NewSceneManager::SetSceneData: store the parsed snapshot and note its arrival. */
    method SetSceneData(snapshot: SceneMsg)
      requires Valid() && variant == NewSet
      modifies this`sceneMsg, this`sceneReceived
      ensures Valid() && sceneMsg == snapshot && sceneReceived
    {
      sceneMsg := snapshot;
      sceneReceived := true;
    }

    // ------------------------------------------ applying one message

    /** The sensor loop of ProcessJoint and ProcessLink: each sensor, in order, under `parent`. */
    method ProcessChildSensors(sensors: seq<SensorMsg>, parent: ParentRef)
      requires activeScene != null
      modifies activeScene
      ensures activeScene.graph == old(activeScene.graph).(nodes := ApplySensors(old(activeScene.graph.nodes), sensors, parent))
    {
      var scene := activeScene;
      var i := 0;
      while i < |sensors|
        invariant 0 <= i <= |sensors|
        invariant scene.graph == old(scene.graph).(nodes := ApplySensors(old(scene.graph.nodes), sensors[..i], parent))
      {
        scene.graph := scene.graph.(nodes := ProcessSensor(scene.graph.nodes, sensors[i], parent));
        assert sensors[..i + 1][..i] == sensors[..i];
        i := i + 1;
      }
      assert sensors[..i] == sensors;
    }

    /** The visual loop of ProcessModel and ProcessLink: it starts at index 1, so the first visual is skipped. */
    method ProcessChildVisuals(visuals: seq<VisualMsg>, parent: ParentRef)
      requires activeScene != null
      modifies activeScene
      ensures activeScene.graph == old(activeScene.graph).(nodes := ApplyVisuals(old(activeScene.graph.nodes), SkipFirst(visuals), parent))
    {
      var scene := activeScene;
      var i := 1;
      while i < |visuals|
        invariant 1 <= i <= if |visuals| == 0 then 1 else |visuals|
        invariant scene.graph == old(scene.graph).(nodes := ApplyVisuals(old(scene.graph.nodes), SkipFirst(visuals)[..i - 1], parent))
      {
        scene.graph := scene.graph.(nodes := ProcessVisual(scene.graph.nodes, visuals[i], parent));
        assert SkipFirst(visuals)[..i][..i - 1] == SkipFirst(visuals)[..i - 1];
        i := i + 1;
      }
      assert SkipFirst(visuals)[..i - 1] == SkipFirst(visuals);
    }

    /** ProcessJoint(msg, parent) on the active scene: find or create, pose, then its sensors. */
    method ProcessJoint(msg: JointMsg, parent: ParentRef)
      requires activeScene != null
      modifies activeScene
      ensures activeScene.graph == old(activeScene.graph).(nodes := GraphRules.ProcessJoint(old(activeScene.graph.nodes), msg, parent))
    {
      var scene := activeScene;
      var got := GetVisual(scene.graph.nodes, msg.id, msg.name, parent);
      if got.handle.None? {
        return;
      }
      scene.graph := scene.graph.(nodes := SetPoseIf(got.nodes, msg.name, msg.pose));
      ProcessChildSensors(msg.sensors, Named(msg.name));
    }

    /** ProcessLink(msg, parent) on the active scene: find or create, pose, visuals after the first, sensors. */
    method ProcessLink(msg: LinkMsg, parent: ParentRef)
      requires activeScene != null
      modifies activeScene
      ensures activeScene.graph == old(activeScene.graph).(nodes := GraphRules.ProcessLink(old(activeScene.graph.nodes), msg, parent))
    {
      var scene := activeScene;
      var got := GetVisual(scene.graph.nodes, msg.id, msg.name, parent);
      if got.handle.None? {
        return;
      }
      scene.graph := scene.graph.(nodes := SetPoseIf(got.nodes, msg.name, msg.pose));
      ProcessChildVisuals(msg.visuals, Named(msg.name));
      ProcessChildSensors(msg.sensors, Named(msg.name));
    }

    /** The joint loop of ProcessModel: each joint, in order, under the model. */
    method ProcessChildJoints(joints: seq<JointMsg>, parent: ParentRef)
      requires activeScene != null
      modifies activeScene
      ensures activeScene.graph == old(activeScene.graph).(nodes := ApplyJoints(old(activeScene.graph.nodes), joints, parent))
    {
      var scene := activeScene;
      var i := 0;
      while i < |joints|
        invariant 0 <= i <= |joints|
        invariant scene.graph == old(scene.graph).(nodes := ApplyJoints(old(scene.graph.nodes), joints[..i], parent))
      {
        ProcessJoint(joints[i], parent);
        assert joints[..i + 1][..i] == joints[..i];
        i := i + 1;
      }
      assert joints[..i] == joints;
    }

    /** The link loop of ProcessModel: each link, in order, under the model. */
    method ProcessChildLinks(links: seq<LinkMsg>, parent: ParentRef)
      requires activeScene != null
      modifies activeScene
      ensures activeScene.graph == old(activeScene.graph).(nodes := ApplyLinks(old(activeScene.graph.nodes), links, parent))
    {
      var scene := activeScene;
      var i := 0;
      while i < |links|
        invariant 0 <= i <= |links|
        invariant scene.graph == old(scene.graph).(nodes := ApplyLinks(old(scene.graph.nodes), links[..i], parent))
      {
        ProcessLink(links[i], parent);
        assert links[..i + 1][..i] == links[..i];
        i := i + 1;
      }
      assert links[..i] == links;
    }

    /** ProcessModel(msg, parent) on the active scene: find or create, pose, scale, joints, links, visuals after the first. */
    method ProcessModel(msg: ModelMsg, parent: ParentRef)
      requires activeScene != null
      modifies activeScene
      ensures activeScene.graph == old(activeScene.graph).(nodes := GraphRules.ProcessModel(old(activeScene.graph.nodes), msg, parent))
    {
      var scene := activeScene;
      var got := GetVisual(scene.graph.nodes, msg.id, msg.name, parent);
      if got.handle.None? {
        return;
      }
      var model := Named(msg.name);
      var posed := SetPoseIf(got.nodes, msg.name, msg.pose);
      scene.graph := scene.graph.(nodes := SetScaleIf(posed, msg.name, msg.scale));
      ProcessChildJoints(msg.joints, model);
      ProcessChildLinks(msg.links, model);
      ProcessChildVisuals(msg.visuals, model);
    }

    // --------------------------------------- applying the buffers

    /** ProcessLights: every buffered light, in order, under the root visual. */
    method ProcessLights()
      requires activeScene != null
      modifies activeScene
      ensures activeScene.graph == old(activeScene.graph).(nodes := ApplyLights(old(activeScene.graph.nodes), lightMsgs))
    {
      var scene := activeScene;
      var i := 0;
      while i < |lightMsgs|
        invariant 0 <= i <= |lightMsgs|
        invariant scene.graph == old(scene.graph).(nodes := ApplyLights(old(scene.graph.nodes), lightMsgs[..i]))
      {
        scene.graph := scene.graph.(nodes := GraphRules.ProcessLight(scene.graph.nodes, lightMsgs[i], Root));
        assert lightMsgs[..i + 1][..i] == lightMsgs[..i];
        i := i + 1;
      }
      assert lightMsgs[..i] == lightMsgs;
    }

    /** ProcessModels: every buffered model, in order, under the root visual. */
    method ProcessModels()
      requires activeScene != null
      modifies activeScene
      ensures activeScene.graph == old(activeScene.graph).(nodes := ApplyModels(old(activeScene.graph.nodes), modelMsgs))
    {
      var scene := activeScene;
      var i := 0;
      while i < |modelMsgs|
        invariant 0 <= i <= |modelMsgs|
        invariant scene.graph == old(scene.graph).(nodes := ApplyModels(old(scene.graph.nodes), modelMsgs[..i]))
      {
        ProcessModel(modelMsgs[i], Root);
        assert modelMsgs[..i + 1][..i] == modelMsgs[..i];
        i := i + 1;
      }
      assert modelMsgs[..i] == modelMsgs;
    }

    /** ProcessJoints: every buffered joint, in order, each under the parent it names. */
    method ProcessJoints()
      requires activeScene != null
      modifies activeScene
      ensures activeScene.graph == old(activeScene.graph).(nodes := ApplyJointMsgs(old(activeScene.graph.nodes), jointMsgs))
    {
      var scene := activeScene;
      var i := 0;
      while i < |jointMsgs|
        invariant 0 <= i <= |jointMsgs|
        invariant scene.graph == old(scene.graph).(nodes := ApplyJointMsgs(old(scene.graph.nodes), jointMsgs[..i]))
      {
        var parent := GetParent(scene.graph.nodes, jointMsgs[i].parent);
        ProcessJoint(jointMsgs[i], parent);
        assert jointMsgs[..i + 1][..i] == jointMsgs[..i];
        i := i + 1;
      }
      assert jointMsgs[..i] == jointMsgs;
    }

    /** ProcessVisuals: every buffered visual, in order, each under the parent it names. */
    method ProcessVisuals()
      requires activeScene != null
      modifies activeScene
      ensures activeScene.graph == old(activeScene.graph).(nodes := ApplyVisualMsgs(old(activeScene.graph.nodes), visualMsgs))
    {
      var scene := activeScene;
      var i := 0;
      while i < |visualMsgs|
        invariant 0 <= i <= |visualMsgs|
        invariant scene.graph == old(scene.graph).(nodes := ApplyVisualMsgs(old(scene.graph.nodes), visualMsgs[..i]))
      {
        var parent := GetParent(scene.graph.nodes, visualMsgs[i].parentName);
        scene.graph := scene.graph.(nodes := ProcessVisual(scene.graph.nodes, visualMsgs[i], parent));
        assert visualMsgs[..i + 1][..i] == visualMsgs[..i];
        i := i + 1;
      }
      assert visualMsgs[..i] == visualMsgs;
    }

    /** ProcessSensors: every buffered sensor, in order, each under the parent it names. */
    method ProcessSensors()
      requires activeScene != null
      modifies activeScene
      ensures activeScene.graph == old(activeScene.graph).(nodes := ApplySensorMsgs(old(activeScene.graph.nodes), sensorMsgs))
    {
      var scene := activeScene;
      var i := 0;
      while i < |sensorMsgs|
        invariant 0 <= i <= |sensorMsgs|
        invariant scene.graph == old(scene.graph).(nodes := ApplySensorMsgs(old(scene.graph.nodes), sensorMsgs[..i]))
      {
        var parent := GetParent(scene.graph.nodes, sensorMsgs[i].parent);
        scene.graph := scene.graph.(nodes := ProcessSensor(scene.graph.nodes, sensorMsgs[i], parent));
        assert sensorMsgs[..i + 1][..i] == sensorMsgs[..i];
        i := i + 1;
      }
      assert sensorMsgs[..i] == sensorMsgs;
    }

    /**
     * CurrentSceneManager::ProcessPoses: every entry of the pose map, in
     * whatever order the map yields them.
     */
    method ProcessPoseMap()
      requires activeScene != null && PoseKeysMatch(poseMsgs)
      modifies activeScene
      ensures activeScene.graph == old(activeScene.graph).(nodes := ApplyPoseMap(old(activeScene.graph.nodes), poseMsgs))
    {
      var scene := activeScene;
      var remaining := poseMsgs.Keys;
      assert PosesOutside(poseMsgs, remaining) == map[];
      assert ApplyPoseMap(scene.graph.nodes, map[]) == scene.graph.nodes;
      while remaining != {}
        invariant remaining <= poseMsgs.Keys
        invariant scene.graph == old(scene.graph).(nodes := ApplyPoseMap(old(scene.graph.nodes), PosesOutside(poseMsgs, remaining)))
        decreases remaining
      {
        var name :| name in remaining;
        PoseMapStep(old(scene.graph.nodes), poseMsgs, remaining, name);
        scene.graph := scene.graph.(nodes := ProcessPose(scene.graph.nodes, poseMsgs[name]));
        remaining := remaining - {name};
      }
      assert PosesOutside(poseMsgs, {}) == poseMsgs;
    }

    /** NewSceneManager::ProcessPoses(batch): record the batch's timestamp, then each pose in order. */
    method ProcessPoseBatch(batch: PosesStampedMsg)
      requires activeScene != null
      modifies this`timePosesReceived, activeScene
      ensures timePosesReceived == Time(batch.time.sec, batch.time.nsec)
      ensures activeScene.graph == old(activeScene.graph).(nodes := ApplyPoses(old(activeScene.graph.nodes), batch.poses))
    {
      timePosesReceived := Time(batch.time.sec, batch.time.nsec);
      var scene := activeScene;
      var i := 0;
      while i < |batch.poses|
        invariant 0 <= i <= |batch.poses|
        invariant timePosesReceived == Time(batch.time.sec, batch.time.nsec)
        invariant scene.graph == old(scene.graph).(nodes := ApplyPoses(old(scene.graph.nodes), batch.poses[..i]))
      {
        scene.graph := scene.graph.(nodes := ProcessPose(scene.graph.nodes, batch.poses[i]));
        assert batch.poses[..i + 1][..i] == batch.poses[..i];
        i := i + 1;
      }
      assert batch.poses[..i] == batch.poses;
    }

    /** NewSceneManager::ProcessPoses: every buffered batch in arrival order; the last timestamp wins. */
    method ProcessPoseBatches()
      requires activeScene != null
      modifies this`timePosesReceived, activeScene
      ensures timePosesReceived == LastPoseTime(posesMsgs, old(timePosesReceived))
      ensures activeScene.graph == old(activeScene.graph).(nodes := ApplyPoseBatches(old(activeScene.graph.nodes), posesMsgs))
    {
      var scene := activeScene;
      var i := 0;
      while i < |posesMsgs|
        invariant 0 <= i <= |posesMsgs|
        invariant timePosesReceived == LastPoseTime(posesMsgs[..i], old(timePosesReceived))
        invariant scene.graph == old(scene.graph).(nodes := ApplyPoseBatches(old(scene.graph.nodes), posesMsgs[..i]))
      {
        ProcessPoseBatch(posesMsgs[i]);
        assert posesMsgs[..i + 1][..i] == posesMsgs[..i];
        i := i + 1;
      }
      assert posesMsgs[..i] == posesMsgs;
    }

    /** ProcessPoses, as each variant overrides it. */
    method ProcessPoses()
      requires activeScene != null && PoseKeysMatch(poseMsgs)
      modifies this`timePosesReceived, activeScene
      ensures timePosesReceived == old(TickTime())
      ensures variant == CurrentSet ==>
                activeScene.graph == old(activeScene.graph).(nodes := ApplyPoseMap(old(activeScene.graph.nodes), poseMsgs))
      ensures variant == NewSet ==>
                activeScene.graph == old(activeScene.graph).(nodes := ApplyPoseBatches(old(activeScene.graph.nodes), posesMsgs))
    {
      match variant
      case CurrentSet =>
        ProcessPoseMap();
      case NewSet =>
        ProcessPoseBatches();
    }

    /**
     * ProcessRemovals: destroy each approved removal by name.  Nothing in
     * the tick calls it, so approved removals are never applied.
     */
    method ProcessRemovals()
      requires activeScene != null
      modifies activeScene
      ensures activeScene.graph == old(activeScene.graph).(nodes := map n | n in old(activeScene.graph.nodes) && n !in approvedRemovals :: old(activeScene.graph.nodes)[n])
    {
      var scene := activeScene;
      var i := 0;
      while i < |approvedRemovals|
        invariant 0 <= i <= |approvedRemovals|
        invariant scene.graph == old(scene.graph).(nodes := map n | n in old(scene.graph.nodes) && n !in approvedRemovals[..i] :: old(scene.graph.nodes)[n])
      {
        scene.graph := scene.graph.(nodes := DestroyNodeByName(scene.graph.nodes, approvedRemovals[i]));
        assert approvedRemovals[..i + 1] == approvedRemovals[..i] + [approvedRemovals[i]];
        i := i + 1;
      }
      assert approvedRemovals[..i] == approvedRemovals;
    }

    /** NewSceneManager::ProcessScene: rebuild the active scene from the last snapshot. */
    method ProcessScene()
      requires activeScene != null
      modifies activeScene
      ensures activeScene.graph == GraphRules.ProcessScene(old(activeScene.graph), sceneMsg)
    {
      var scene := activeScene;
      scene.Clear();
      if sceneMsg.ambient.Some? {
        scene.SetAmbientLight(OpaqueColor(sceneMsg.ambient.value));
      }
      if sceneMsg.background.Some? {
        scene.SetBackgroundColor(OpaqueColor(sceneMsg.background.value));
      }
      ProcessSceneLights(sceneMsg.lights);
      ProcessSceneModels(sceneMsg.models);
    }

    /** ProcessScene's first loop: each light of the snapshot is created under the root. */
    method ProcessSceneLights(lights: seq<LightMsg>)
      requires activeScene != null
      modifies activeScene
      ensures activeScene.graph == old(activeScene.graph).(nodes := ApplyLights(old(activeScene.graph.nodes), lights))
    {
      var scene := activeScene;
      var i := 0;
      while i < |lights|
        invariant 0 <= i <= |lights|
        invariant scene.graph == old(scene.graph).(nodes := ApplyLights(old(scene.graph.nodes), lights[..i]))
      {
        scene.graph := scene.graph.(nodes := GraphRules.ProcessLight(scene.graph.nodes, lights[i], Root));
        assert lights[..i + 1][..i] == lights[..i];
        i := i + 1;
      }
      assert lights[..i] == lights;
    }

    /** ProcessScene's second loop: each model of the snapshot is built under the root. */
    method ProcessSceneModels(models: seq<ModelMsg>)
      requires activeScene != null
      modifies activeScene
      ensures activeScene.graph == old(activeScene.graph).(nodes := ApplyModels(old(activeScene.graph.nodes), models))
    {
      var i := 0;
      while i < |models|
        invariant 0 <= i <= |models|
        invariant activeScene.graph == old(activeScene.graph).(nodes := ApplyModels(old(activeScene.graph.nodes), models[..i]))
      {
        ProcessModel(models[i], Root);
        assert models[..i + 1][..i] == models[..i];
        i := i + 1;
      }
      assert models[..i] == models;
    }

    // ---------------------------------------------------- one tick

    /**
     * ProcessMessages on the active scene: the scene becomes TickGraph of
     * its old state and the buffers, and the buffers themselves are kept.
     */
    method ProcessMessages()
      requires activeScene != null && PoseKeysMatch(poseMsgs)
      modifies this`timePosesReceived, activeScene
      ensures activeScene.graph == TickGraph(old(activeScene.graph), old(PendingTick()))
      ensures timePosesReceived == old(TickTime())
    {
      var scene := activeScene;
      if variant == NewSet {
        ProcessScene();
      }
      ghost var start := scene.graph;
      ProcessLights();
      ProcessModels();
      ProcessJoints();
      ProcessVisuals();
      ProcessSensors();
      assert scene.graph == start.(nodes := ApplyStructure(start.nodes, Buffered()));
      ProcessPoses();
      scene.SetSimTime(timePosesReceived);
    }

    /**
     * One step of UpdateScenes' loop: scene `i` becomes the active scene and
     * is ticked.  `before` holds the graphs the scenes had and `expected` the
     * graphs one tick of `input` makes of them.
     */
    method TickAt(i: nat, ghost before: map<Scene, Graph>, ghost input: TickInput, ghost expected: map<Scene, Graph>)
      requires i < |scenes| && PoseKeysMatch(poseMsgs) && PendingTick() == input
      requires scenes[i] in before && scenes[i] in expected && scenes[i].graph == before[scenes[i]]
      requires forall s {:trigger TickGraph(before[s], input)} ::
                 s in before && s in expected ==> expected[s] == TickGraph(before[s], input)
      modifies this`activeScene, this`timePosesReceived, scenes[i]
      ensures activeScene == scenes[i] && scenes[i].graph == expected[scenes[i]]
      ensures timePosesReceived == input.time
    {
      var scene := scenes[i];
      assert expected[scene] == TickGraph(before[scene], input);
      activeScene := scene;
      ProcessMessages();
    }

    /** The loop of UpdateScenes: each scene in list order becomes the active scene and is ticked. */
    method TickEach(ghost before: map<Scene, Graph>, ghost input: TickInput, ghost expected: map<Scene, Graph>)
      requires Distinct(scenes) && PoseKeysMatch(poseMsgs) && PendingTick() == input
      requires forall s :: s in scenes ==> s in before && s in expected && s.graph == before[s]
      requires forall s {:trigger TickGraph(before[s], input)} ::
                 s in before && s in expected ==> expected[s] == TickGraph(before[s], input)
      modifies this`activeScene, this`timePosesReceived, scenes
      ensures timePosesReceived == if |scenes| > 0 then input.time else old(timePosesReceived)
      ensures forall s :: s in scenes ==> s.graph == expected[s]
    {
      var i := 0;
      while i < |scenes|
        invariant 0 <= i <= |scenes|
        invariant PendingTick() == input
        invariant i > 0 ==> timePosesReceived == input.time
        invariant i == 0 ==> timePosesReceived == old(timePosesReceived)
        invariant forall j :: 0 <= j < i ==> scenes[j].graph == expected[scenes[j]]
        invariant forall j :: i <= j < |scenes| ==> scenes[j].graph == old(scenes[j].graph)
      {
        label LoopStart:
        var scene := scenes[i];
        TickAt(i, before, input, expected);
        forall j | 0 <= j < |scenes| && j != i
          ensures scenes[j].graph == old@LoopStart(scenes[j].graph)
        {
          assert scenes[j] != scene;
        }
        i := i + 1;
      }
      forall s | s in scenes
        ensures s.graph == expected[s]
      {
        var j :| 0 <= j < |scenes| && scenes[j] == s;
      }
    }

    /** Ticks every scene once; `expected` holds, per scene, the graph one tick makes of it. */
    method TickScenes(ghost expected: map<Scene, Graph>)
      requires Distinct(scenes) && PoseKeysMatch(poseMsgs)
      requires forall s :: s in scenes ==> s in expected && expected[s] == TickGraph(s.graph, PendingTick())
      modifies this`activeScene, this`timePosesReceived, scenes
      ensures timePosesReceived == if |scenes| > 0 then old(TickTime()) else old(timePosesReceived)
      ensures forall s :: s in scenes ==> s.graph == expected[s]
    {
      ghost var input := PendingTick();
      ghost var before := map s | s in scenes :: s.graph;
      forall s {:trigger TickGraph(before[s], input)} | s in before && s in expected
        ensures expected[s] == TickGraph(before[s], input)
      {
        assert s in scenes;
      }
      TickEach(before, input, expected);
    }

    /**
     * UpdateScenes: every scene, in list order, gets one tick of the same
     * buffered messages; then the buffers are emptied.
     */
    method UpdateScenes()
      requires Valid()
      modifies this, scenes
      ensures Valid() && NoPendingMessages()
      ensures scenes == old(scenes) && approvedRemovals == old(approvedRemovals) && sceneMsg == old(sceneMsg)
      ensures timePosesReceived == if |scenes| > 0 then old(TickTime()) else old(timePosesReceived)
      ensures forall s :: s in scenes ==> s.graph == TickGraph(old(s.graph), old(PendingTick()))
    {
      TickScenes(map s | s in scenes :: TickGraph(s.graph, PendingTick()));
      activeScene := null;
      ClearMessages();
    }
  }
}
