/**
 * The shape invariant the graph rules keep: every node hangs under the root
 * visual or under an existing visual (SubSceneManager::GetParent falls back
 * to the root, and children are attached to the visual just found or
 * created).  Nodes are never dropped or retyped, so a parent that was valid
 * stays valid.
 */
module GraphFacts {
  import opened Wrappers
  import opened Msgs
  import opened Scenes
  import opened GraphRules

  /** Existing nodes keep their parents. */
  predicate ParentsKept(a: NodeMap, b: NodeMap) {
    forall n :: n in a && n in b ==> b[n].parent == a[n].parent
  }

  lemma ValidParentPersists(a: NodeMap, b: NodeMap, parent: ParentRef)
    requires Extends(a, b) && ValidParent(a, parent)
    ensures ValidParent(b, parent)
  {
  }

  /** A map that extends a well-parented one, keeps old parents and attaches new nodes validly is well parented. */
  lemma GrowthKeepsWellParented(a: NodeMap, b: NodeMap)
    requires WellParented(a) && Extends(a, b) && ParentsKept(a, b)
    requires forall n :: n in b && n !in a ==> ValidParent(b, b[n].parent)
    ensures WellParented(b)
  {
    forall n | n in b
      ensures ValidParent(b, b[n].parent)
    {
      if n in a {
        ValidParentPersists(a, b, a[n].parent);
      }
    }
  }

  lemma GetVisualKeepsWellParented(nodes: NodeMap, id: Option<nat>, name: string, parent: ParentRef)
    requires WellParented(nodes) && ValidParent(nodes, parent)
    ensures WellParented(GetVisual(nodes, id, name, parent).nodes)
  {
    var r := GetVisual(nodes, id, name, parent).nodes;
    if name !in nodes {
      ValidParentPersists(nodes, r, parent);
      GrowthKeepsWellParented(nodes, r);
    }
  }

  lemma LightKeepsWellParented(nodes: NodeMap, msg: LightMsg, parent: ParentRef)
    requires WellParented(nodes) && ValidParent(nodes, parent)
    ensures WellParented(ProcessLight(nodes, msg, parent))
  {
    var r := ProcessLight(nodes, msg, parent);
    ValidParentPersists(nodes, r, parent);
    GrowthKeepsWellParented(nodes, r);
  }

  lemma VisualKeepsWellParented(nodes: NodeMap, msg: VisualMsg, parent: ParentRef)
    requires WellParented(nodes) && ValidParent(nodes, parent)
    ensures WellParented(ProcessVisual(nodes, msg, parent))
  {
    var r := ProcessVisual(nodes, msg, parent);
    ValidParentPersists(nodes, r, parent);
    GrowthKeepsWellParented(nodes, r);
  }

  lemma SensorKeepsWellParented(nodes: NodeMap, msg: SensorMsg, parent: ParentRef)
    requires WellParented(nodes) && ValidParent(nodes, parent)
    ensures WellParented(ProcessSensor(nodes, msg, parent))
  {
    var r := ProcessSensor(nodes, msg, parent);
    ValidParentPersists(nodes, r, parent);
    GrowthKeepsWellParented(nodes, r);
  }

  lemma {:induction false} SensorsKeepWellParented(nodes: NodeMap, ss: seq<SensorMsg>, parent: ParentRef)
    requires WellParented(nodes) && ValidParent(nodes, parent)
    ensures WellParented(ApplySensors(nodes, ss, parent))
  {
    if |ss| > 0 {
      var before := ApplySensors(nodes, ss[..|ss| - 1], parent);
      SensorsKeepWellParented(nodes, ss[..|ss| - 1], parent);
      ValidParentPersists(nodes, before, parent);
      SensorKeepsWellParented(before, ss[|ss| - 1], parent);
    }
  }

  lemma {:induction false} VisualsKeepWellParented(nodes: NodeMap, vs: seq<VisualMsg>, parent: ParentRef)
    requires WellParented(nodes) && ValidParent(nodes, parent)
    ensures WellParented(ApplyVisuals(nodes, vs, parent))
  {
    if |vs| > 0 {
      var before := ApplyVisuals(nodes, vs[..|vs| - 1], parent);
      VisualsKeepWellParented(nodes, vs[..|vs| - 1], parent);
      ValidParentPersists(nodes, before, parent);
      VisualKeepsWellParented(before, vs[|vs| - 1], parent);
    }
  }

  /** Setting a pose or scale touches neither kinds nor parents. */
  lemma PoseScaleKeepWellParented(nodes: NodeMap, name: string, p: Option<PoseMsg>, s: Option<Vector3dMsg>)
    requires WellParented(nodes) && name in nodes
    ensures WellParented(SetPoseIf(nodes, name, p))
    ensures WellParented(SetScaleIf(SetPoseIf(nodes, name, p), name, s))
  {
  }

  lemma JointKeepsWellParented(nodes: NodeMap, msg: JointMsg, parent: ParentRef)
    requires WellParented(nodes) && ValidParent(nodes, parent)
    ensures WellParented(ProcessJoint(nodes, msg, parent))
  {
    var got := GetVisual(nodes, msg.id, msg.name, parent);
    if got.handle.Some? {
      GetVisualKeepsWellParented(nodes, msg.id, msg.name, parent);
      PoseScaleKeepWellParented(got.nodes, msg.name, msg.pose, None);
      SensorsKeepWellParented(SetPoseIf(got.nodes, msg.name, msg.pose), msg.sensors, Named(msg.name));
    }
  }

  lemma {:induction false} JointsKeepWellParented(nodes: NodeMap, js: seq<JointMsg>, parent: ParentRef)
    requires WellParented(nodes) && ValidParent(nodes, parent)
    ensures WellParented(ApplyJoints(nodes, js, parent))
  {
    if |js| > 0 {
      var before := ApplyJoints(nodes, js[..|js| - 1], parent);
      JointsKeepWellParented(nodes, js[..|js| - 1], parent);
      ValidParentPersists(nodes, before, parent);
      JointKeepsWellParented(before, js[|js| - 1], parent);
    }
  }

  lemma LinkKeepsWellParented(nodes: NodeMap, msg: LinkMsg, parent: ParentRef)
    requires WellParented(nodes) && ValidParent(nodes, parent)
    ensures WellParented(ProcessLink(nodes, msg, parent))
  {
    var got := GetVisual(nodes, msg.id, msg.name, parent);
    if got.handle.Some? {
      var link := Named(msg.name);
      GetVisualKeepsWellParented(nodes, msg.id, msg.name, parent);
      PoseScaleKeepWellParented(got.nodes, msg.name, msg.pose, None);
      var posed := SetPoseIf(got.nodes, msg.name, msg.pose);
      VisualsKeepWellParented(posed, SkipFirst(msg.visuals), link);
      var withVisuals := ApplyVisuals(posed, SkipFirst(msg.visuals), link);
      ValidParentPersists(posed, withVisuals, link);
      SensorsKeepWellParented(withVisuals, msg.sensors, link);
    }
  }

  lemma {:induction false} LinksKeepWellParented(nodes: NodeMap, ls: seq<LinkMsg>, parent: ParentRef)
    requires WellParented(nodes) && ValidParent(nodes, parent)
    ensures WellParented(ApplyLinks(nodes, ls, parent))
  {
    if |ls| > 0 {
      var before := ApplyLinks(nodes, ls[..|ls| - 1], parent);
      LinksKeepWellParented(nodes, ls[..|ls| - 1], parent);
      ValidParentPersists(nodes, before, parent);
      LinkKeepsWellParented(before, ls[|ls| - 1], parent);
    }
  }

  lemma ModelKeepsWellParented(nodes: NodeMap, msg: ModelMsg, parent: ParentRef)
    requires WellParented(nodes) && ValidParent(nodes, parent)
    ensures WellParented(ProcessModel(nodes, msg, parent))
  {
    var got := GetVisual(nodes, msg.id, msg.name, parent);
    if got.handle.Some? {
      var m := Named(msg.name);
      GetVisualKeepsWellParented(nodes, msg.id, msg.name, parent);
      PoseScaleKeepWellParented(got.nodes, msg.name, msg.pose, msg.scale);
      var scaled := SetScaleIf(SetPoseIf(got.nodes, msg.name, msg.pose), msg.name, msg.scale);
      JointsKeepWellParented(scaled, msg.joints, m);
      var withJoints := ApplyJoints(scaled, msg.joints, m);
      ValidParentPersists(scaled, withJoints, m);
      LinksKeepWellParented(withJoints, msg.links, m);
      var withLinks := ApplyLinks(withJoints, msg.links, m);
      ExtendsTransitive(scaled, withJoints, withLinks);
      ValidParentPersists(scaled, withLinks, m);
      VisualsKeepWellParented(withLinks, SkipFirst(msg.visuals), m);
    }
  }

  lemma {:induction false} LightsKeepWellParented(nodes: NodeMap, ls: seq<LightMsg>)
    requires WellParented(nodes)
    ensures WellParented(ApplyLights(nodes, ls))
  {
    if |ls| > 0 {
      LightsKeepWellParented(nodes, ls[..|ls| - 1]);
      LightKeepsWellParented(ApplyLights(nodes, ls[..|ls| - 1]), ls[|ls| - 1], Root);
    }
  }

  lemma {:induction false} ModelsKeepWellParented(nodes: NodeMap, ms: seq<ModelMsg>)
    requires WellParented(nodes)
    ensures WellParented(ApplyModels(nodes, ms))
  {
    if |ms| > 0 {
      ModelsKeepWellParented(nodes, ms[..|ms| - 1]);
      ModelKeepsWellParented(ApplyModels(nodes, ms[..|ms| - 1]), ms[|ms| - 1], Root);
    }
  }

  lemma {:induction false} JointMsgsKeepWellParented(nodes: NodeMap, js: seq<JointMsg>)
    requires WellParented(nodes)
    ensures WellParented(ApplyJointMsgs(nodes, js))
  {
    if |js| > 0 {
      var before := ApplyJointMsgs(nodes, js[..|js| - 1]);
      JointMsgsKeepWellParented(nodes, js[..|js| - 1]);
      JointKeepsWellParented(before, js[|js| - 1], GetParent(before, js[|js| - 1].parent));
    }
  }

  lemma {:induction false} VisualMsgsKeepWellParented(nodes: NodeMap, vs: seq<VisualMsg>)
    requires WellParented(nodes)
    ensures WellParented(ApplyVisualMsgs(nodes, vs))
  {
    if |vs| > 0 {
      var before := ApplyVisualMsgs(nodes, vs[..|vs| - 1]);
      VisualMsgsKeepWellParented(nodes, vs[..|vs| - 1]);
      VisualKeepsWellParented(before, vs[|vs| - 1], GetParent(before, vs[|vs| - 1].parentName));
    }
  }

  lemma {:induction false} SensorMsgsKeepWellParented(nodes: NodeMap, ss: seq<SensorMsg>)
    requires WellParented(nodes)
    ensures WellParented(ApplySensorMsgs(nodes, ss))
  {
    if |ss| > 0 {
      var before := ApplySensorMsgs(nodes, ss[..|ss| - 1]);
      SensorMsgsKeepWellParented(nodes, ss[..|ss| - 1]);
      SensorKeepsWellParented(before, ss[|ss| - 1], GetParent(before, ss[|ss| - 1].parent));
    }
  }

  /** The buffered structure messages of a tick keep the graph well parented. */
  lemma StructureKeepsWellParented(nodes: NodeMap, p: Pending)
    requires WellParented(nodes)
    ensures WellParented(ApplyStructure(nodes, p))
  {
    var lit := ApplyLights(nodes, p.lights);
    LightsKeepWellParented(nodes, p.lights);
    var modelled := ApplyModels(lit, p.models);
    ModelsKeepWellParented(lit, p.models);
    var jointed := ApplyJointMsgs(modelled, p.joints);
    JointMsgsKeepWellParented(modelled, p.joints);
    var visualised := ApplyVisualMsgs(jointed, p.visuals);
    VisualMsgsKeepWellParented(jointed, p.visuals);
    SensorMsgsKeepWellParented(visualised, p.sensors);
  }

  /** A scene rebuilt from a snapshot is well parented, whatever it held before. */
  lemma SnapshotIsWellParented(g: Graph, s: SceneMsg)
    ensures WellParented(ProcessScene(g, s).nodes)
  {
    LightsKeepWellParented(map[], s.lights);
    ModelsKeepWellParented(ApplyLights(map[], s.lights), s.models);
  }

  /** Standalone poses move nodes; they never change a kind or a parent. */
  predicate SameShape(a: NodeMap, b: NodeMap) {
    a.Keys == b.Keys && forall n :: n in a ==> b[n].kind == a[n].kind && b[n].parent == a[n].parent
  }

  lemma SameShapeKeepsWellParented(a: NodeMap, b: NodeMap)
    requires WellParented(a) && SameShape(a, b)
    ensures WellParented(b)
  {
    forall n | n in b
      ensures ValidParent(b, b[n].parent)
    {
      assert ValidParent(a, a[n].parent);
    }
  }

  lemma PoseMapKeepsShape(nodes: NodeMap, pm: map<string, PoseMsg>)
    ensures SameShape(nodes, ApplyPoseMap(nodes, pm))
  {
  }

  lemma {:induction false} PosesKeepShape(nodes: NodeMap, ps: seq<PoseMsg>)
    ensures SameShape(nodes, ApplyPoses(nodes, ps))
  {
    if |ps| > 0 {
      PosesKeepShape(nodes, ps[..|ps| - 1]);
    }
  }

  lemma {:induction false} PoseBatchesKeepShape(nodes: NodeMap, bs: seq<PosesStampedMsg>)
    ensures SameShape(nodes, ApplyPoseBatches(nodes, bs))
  {
    if |bs| > 0 {
      var before := ApplyPoseBatches(nodes, bs[..|bs| - 1]);
      PoseBatchesKeepShape(nodes, bs[..|bs| - 1]);
      PosesKeepShape(before, bs[|bs| - 1].poses);
    }
  }
}
