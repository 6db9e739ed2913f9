# Scene manager core, modelled in Dafny

This project models the scene manager of the Gazebo-to-Ignition rendering bridge
(`src/SceneManager.cc`). The manager keeps render scenes in step with a running
simulation.

The coordinator (`SceneManagerPrivate`, here `Manager.SceneManager`) holds two
scene sets:

- the **Current** set (`CurrentSceneManager`) keeps scenes up to date from
  incremental messages: lights, models, joints, visuals, sensors and poses;
- the **New** set (`NewSceneManager`) holds scenes that are waiting for a full
  scene snapshot.

A newly added scene joins the New set. If no snapshot request is outstanding,
the coordinator sends one. When the response with the matching request id
arrives, the snapshot is stored and promotion is marked as needed.

On each `UpdateScenes` tick:

1. every Current scene applies the buffered messages;
2. if promotion is needed, every New scene is rebuilt from the snapshot, replays
   the buffered pose batches, and moves to the Current set.

A `scene` update message demotes every scene back to the New set, clears it and
asks for a fresh snapshot. Deletions are correlated through request ids:
`entity_delete` requests are remembered by id, and a `success` response forwards
the deleted entity's name to both sets.

The model is split into modules:

- `Msgs` holds the wire messages as values.
- `Convert` holds the value conversions.
- `Scenes` holds the scene graph: a map from node name to node, with the node's
  kind, parent, pose, scale, geometries, material and light settings. Its
  `Scene` class stands for the render engine's scene object.
- `GraphRules` holds the pure rules of every `Process*` operation, as functions
  on the graph.
- `GraphFacts` holds the lemmas about those rules that keep the graph well parented.
- `GraphGrowth` holds the lemmas about what the nested rules (joints, links, models and their loops) create and what they leave alone.
- `SubScenes` holds the scene sets: one class `SubSceneManager` with a
  `variant` tag (Current or New) instead of two subclasses. Its imperative
  methods are proved against the `GraphRules` functions and against
  `TickGraph`, the graph a scene has after one tick.
- `Manager` holds the coordinator class.

## Model

| member | source | states |
|---|---|---|
| Convert.ConvertShaderType | src/SceneManager.cc:1694-1713 | a shader type maps to `UNKNOWN` exactly when it is not one of the four recognised types |
| Scenes.DestroyNodeByName | src/SceneManager.cc:1642-1645 | removing a node removes exactly that name, leaves every other node as it was, and is a no-op for an absent name |
| Scenes.Scene.Clear | src/SceneManager.cc:1891 | clearing a scene drops every node and keeps its ambient light, background and time |
| Scenes.Scene.SetSimTime | src/SceneManager.cc:852 | the tick stamps the scene with the pose time and changes nothing else |
| Scenes.Scene.SetAmbientLight | src/SceneManager.cc:1898 | sets the ambient colour only |
| Scenes.Scene.SetBackgroundColor | src/SceneManager.cc:1906 | sets the background colour only |
| GraphRules.GetParent | src/SceneManager.cc:1618-1639 | the parent is always a valid handle; it is the root exactly when the name is empty or names no visual, and otherwise that visual |
| GraphRules.GetVisual | src/SceneManager.cc:1380-1403 | a visual handle results exactly when the name is free (then a visual is created under the parent) or names a visual; an existing name leaves the graph unchanged |
| GraphRules.GeomFunctions | src/SceneManager.cc:1716-1739 | the geometry handler table has no entry exactly for cones and unknown types, and never registers the cone handler |
| GraphRules.GeometriesFor | src/SceneManager.cc:1716-1739 | exactly the registered types other than EMPTY attach one geometry; cones, EMPTY and unknown types attach none |
| GraphRules.ProcessGeometry | src/SceneManager.cc:1406-1422 | only the target visual changes, and only in its geometries and scale, which become those of the type table (`GeometriesFor`, `ScaleFor`) |
| GraphRules.ApplyGeometry | src/SceneManager.cc:1425-1526 | the handlers dispatched through the table give the visual the type's geometry and scale (box: its size; cylinder: (r, r, length); plane: (x, y, 1); sphere: (r, r, r); mesh: the message scale if any) and change nothing else |
| GraphRules.CreateMaterial | src/SceneManager.cc:1529-1591 | each colour is the converted message colour when present and the default otherwise; lighting and normal map are copied; the shader type is the mapped one, `UNKNOWN` for an unrecognised type |
| GraphRules.ApplyLightImpl | src/SceneManager.cc:1074-1131 | pose, diffuse, specular, the four attenuation settings and cast-shadows each take the message value when present and stay otherwise; direction, spot cone, kind, parent and the rest of the node stay |
| GraphRules.ApplyDirection | src/SceneManager.cc:918-930 | the direction takes the message value when present; nothing else changes |
| GraphRules.ApplySpotImpl | src/SceneManager.cc:1012-1045 | direction, inner angle, outer angle and falloff each take the message value when present; every other field is what the general light step makes it |
| GraphRules.ApplyTypedLight | src/SceneManager.cc:910-1045 | spot and directional lights take the direction, only spot lights take the cone, and every kind gets the general light step |
| GraphRules.ProcessLight | src/SceneManager.cc:867-1131 | with a valid declared type, a free name or a light of that kind ends as the typed update of the existing node or of a fresh node of that kind under the parent, and a name held by another kind changes nothing; without a type only an existing light is updated; an invalid type changes nothing; no other node changes |
| GraphRules.ProcessVisual | src/SceneManager.cc:1288-1339 | for a free name or an existing visual, the node ends as `DressVisual` of the existing node or of a fresh visual under the given parent; a name held by a non-visual changes nothing; no other node changes |
| GraphRules.DressVisual | src/SceneManager.cc:1295-1329 | pose and material take the message values when present; the message scale applies unless a geometry overrides it; the geometry follows the type table; kind, id, parent and light settings stay |
| GraphRules.ProcessSensor | src/SceneManager.cc:1134-1190 | only a camera sensor with a free name adds a node, a fresh camera under the given parent; an existing name or a non-camera sensor changes nothing |
| GraphRules.ApplySensors | src/SceneManager.cc:1361-1366 | processing a link's sensors keeps every existing node and its kind |
| GraphRules.ApplyVisuals | src/SceneManager.cc:1353-1359 | processing a link's or model's visuals keeps every existing node and its kind |
| GraphGrowth.Placed | src/SceneManager.cc:1380-1393 | the lookup-or-create, pose and scale steps touch only the named node, which ends as the found or fresh visual with the given pose and scale |
| GraphGrowth.SensorsConfined | src/SceneManager.cc:1361-1366 | a sensor loop changes no existing node and adds only names of its sensors |
| GraphGrowth.VisualsConfined | src/SceneManager.cc:1353-1359 | a visual loop touches only its visuals' names, keeps every parent, and creates each new name as a visual under the loop's parent |
| GraphGrowth.JointConfined | src/SceneManager.cc:1258-1275 | a joint message adds only the joint's and its sensors' names and changes no node but the joint's |
| GraphGrowth.JointResult | src/SceneManager.cc:1258-1285 | the joint is the found visual or a fresh one under the parent, with the message's pose when given; a name held by a non-visual changes nothing |
| GraphGrowth.JointsConfined | src/SceneManager.cc:1217-1222 | a model's joints touch only the names they carry and keep every parent |
| GraphGrowth.LinkConfined | src/SceneManager.cc:1342-1367 | a link message touches only its own, its later visuals' and its sensors' names, and keeps every parent |
| GraphGrowth.LinkResult | src/SceneManager.cc:1342-1377 | the link is the found visual or a fresh one under the parent, and keeps that parent; it has the message's pose unless one of its own visuals shares its name; a name held by a non-visual changes nothing |
| GraphGrowth.LinkSkipsFirstVisual | src/SceneManager.cc:1353-1359 | the link's visual 0 is never created when nothing else carries its name |
| GraphGrowth.LinkCreatesLaterVisuals | src/SceneManager.cc:1353-1359 | each of the link's visuals 1..n-1 with a new name is created as a visual under the link |
| GraphGrowth.LinksConfined | src/SceneManager.cc:1224-1229 | a model's links touch only the names they carry and keep every parent |
| GraphGrowth.ModelStagesConfined | src/SceneManager.cc:1217-1237 | the joint, link and visual stages of a model touch only the names they carry |
| GraphGrowth.ModelConfined | src/SceneManager.cc:1200-1238 | a model message touches only its own name and the names of its joints, links and later visuals, and keeps every parent |
| GraphGrowth.ModelResult | src/SceneManager.cc:1200-1248 | the model is the found visual or a fresh one under the parent, and keeps that parent; it has the message's pose and scale unless a nested joint, link or visual shares its name; a name held by a non-visual changes nothing |
| GraphGrowth.ModelSkipsFirstVisual | src/SceneManager.cc:1231-1237 | the model's visual 0 is never created when nothing else carries its name |
| GraphGrowth.ModelCreatesLaterVisuals | src/SceneManager.cc:1231-1237 | each of the model's visuals 1..n-1 with a name new to the graph, the joints and the links is created as a visual under the model |
| GraphRules.SkipFirst | src/SceneManager.cc:1231-1237 | the visual loop starts at index 1: it sees every visual but the first, in order |
| GraphRules.ProcessJoint | src/SceneManager.cc:1251-1285 | a joint message keeps every existing node and its kind |
| GraphRules.ApplyJoints | src/SceneManager.cc:1217-1222 | processing a model's joints keeps every existing node and its kind |
| GraphRules.ProcessLink | src/SceneManager.cc:1342-1377 | a link message keeps every existing node and its kind |
| GraphRules.ApplyLinks | src/SceneManager.cc:1224-1229 | processing a model's links keeps every existing node and its kind |
| GraphRules.ProcessModel | src/SceneManager.cc:1193-1248 | a model message keeps every existing node and its kind |
| GraphRules.ApplyLights | src/SceneManager.cc:1777-1784 | the buffered lights keep every existing node and its kind |
| GraphRules.ApplyModels | src/SceneManager.cc:1787-1794 | the buffered models keep every existing node and its kind |
| GraphRules.ApplyJointMsgs | src/SceneManager.cc:1797-1804 | the buffered joints keep every existing node and its kind |
| GraphRules.ApplyVisualMsgs | src/SceneManager.cc:1807-1814 | the buffered visuals keep every existing node and its kind |
| GraphRules.ApplySensorMsgs | src/SceneManager.cc:1817-1824 | the buffered sensors keep every existing node and its kind |
| GraphRules.ApplyStructure | src/SceneManager.cc:844-848 | lights, models, joints, visuals and sensors, in that order, keep every existing node and its kind |
| GraphRules.ProcessPose | src/SceneManager.cc:1594-1607 | a pose changes only the named node's pose, and an unknown name changes nothing |
| GraphRules.ApplyPoses | src/SceneManager.cc:1991-2004 | a batch of poses keeps the set of node names |
| GraphRules.ApplyPoseBatches | src/SceneManager.cc:1980-1988 | the buffered pose batches keep the set of node names |
| GraphRules.ApplyPoseMap | src/SceneManager.cc:1827-1834 | the Current pose map keeps the set of node names, in any iteration order |
| GraphRules.ProcessScene | src/SceneManager.cc:1886-1922 | the rebuilt nodes depend on the snapshot alone (lights, then models, on an empty graph); ambient and background take the snapshot's colour, opaque, when present; the time is kept |
| GraphFacts.GrowthKeepsWellParented | src/SceneManager.cc:1618-1639 | growing a graph keeps every node attached to the root or to an existing visual |
| GraphFacts.GetVisualKeepsWellParented | src/SceneManager.cc:1380-1403 | looking up or creating a visual keeps the graph well parented |
| GraphFacts.LightKeepsWellParented | src/SceneManager.cc:867-907 | a light message keeps the graph well parented |
| GraphFacts.VisualKeepsWellParented | src/SceneManager.cc:1288-1329 | a visual message keeps the graph well parented |
| GraphFacts.SensorKeepsWellParented | src/SceneManager.cc:1134-1150 | a sensor message keeps the graph well parented |
| GraphFacts.SensorsKeepWellParented | src/SceneManager.cc:1361-1366 | a link's sensors keep the graph well parented |
| GraphFacts.VisualsKeepWellParented | src/SceneManager.cc:1353-1359 | a link's or model's visuals keep the graph well parented |
| GraphFacts.PoseScaleKeepWellParented | src/SceneManager.cc:1602-1615 | setting a pose or a scale keeps the graph well parented |
| GraphFacts.JointKeepsWellParented | src/SceneManager.cc:1251-1275 | a joint message keeps the graph well parented |
| GraphFacts.JointsKeepWellParented | src/SceneManager.cc:1217-1222 | a model's joints keep the graph well parented |
| GraphFacts.LinkKeepsWellParented | src/SceneManager.cc:1342-1367 | a link message keeps the graph well parented |
| GraphFacts.LinksKeepWellParented | src/SceneManager.cc:1224-1229 | a model's links keep the graph well parented |
| GraphFacts.ModelKeepsWellParented | src/SceneManager.cc:1193-1238 | a model message keeps the graph well parented |
| GraphFacts.LightsKeepWellParented | src/SceneManager.cc:1777-1784 | the buffered lights keep the graph well parented |
| GraphFacts.ModelsKeepWellParented | src/SceneManager.cc:1787-1794 | the buffered models keep the graph well parented |
| GraphFacts.JointMsgsKeepWellParented | src/SceneManager.cc:1797-1804 | the buffered joints keep the graph well parented |
| GraphFacts.VisualMsgsKeepWellParented | src/SceneManager.cc:1807-1814 | the buffered visuals keep the graph well parented |
| GraphFacts.SensorMsgsKeepWellParented | src/SceneManager.cc:1817-1824 | the buffered sensors keep the graph well parented |
| GraphFacts.StructureKeepsWellParented | src/SceneManager.cc:844-848 | one tick's structural messages keep the graph well parented |
| GraphFacts.SnapshotIsWellParented | src/SceneManager.cc:1886-1922 | a graph rebuilt from any snapshot is well parented |
| GraphFacts.SameShapeKeepsWellParented | src/SceneManager.cc:1594-1607 | changing only poses cannot break parenting |
| GraphFacts.PoseMapKeepsShape | src/SceneManager.cc:1827-1834 | the Current pose map changes no node's name, kind or parent |
| GraphFacts.PosesKeepShape | src/SceneManager.cc:1991-2004 | a pose batch changes no node's name, kind or parent |
| GraphFacts.PoseBatchesKeepShape | src/SceneManager.cc:1980-1988 | the buffered pose batches change no node's name, kind or parent |
| SubScenes.AddIfAbsent | src/SceneManager.cc:667-684 | adding a scene keeps the list free of duplicates and leaves the scene in it |
| SubScenes.AddAll | src/SceneManager.cc:513-526 | adding many scenes one by one keeps the list free of duplicates |
| SubScenes.AddAllMembers | src/SceneManager.cc:513-526 | after moving scenes over, the target holds exactly the scenes it had plus the moved ones |
| SubScenes.AddAllIntoEmpty | src/SceneManager.cc:538-544 | moving a duplicate-free list into an empty set reproduces it in the same order, so scene indices are kept |
| SubScenes.MissingMembers | src/SceneManager.cc:513-526 | the scenes actually appended are the moved ones not already present |
| SubScenes.AddAllAppendsMissing | src/SceneManager.cc:513-526 | moving scenes keeps the target's order and appends the missing ones in their own order |
| SubScenes.OverlayPoses | src/SceneManager.cc:1752-1767 | the Current pose buffer stays keyed by each pose's own name |
| SubScenes.OverlayKeepsLastPose | src/SceneManager.cc:1752-1767 | after buffering a batch, a name holds the last pose given for it |
| SubScenes.OverlayKeepsOthers | src/SceneManager.cc:1752-1767 | the buffer holds exactly the earlier names plus the new ones, and names absent from the batch keep their pose |
| SubScenes.PoseMapStep | src/SceneManager.cc:1827-1834 | applying one more entry of the pose map is processing the pose it holds |
| SubScenes.PoseOverlayStep | src/SceneManager.cc:1752-1767 | replacing a buffered pose and then applying the map equals applying the map and then that pose |
| SubScenes.OverlayMatchesPoseOrder | src/SceneManager.cc:1752-1767 | buffering a batch into the map and applying the map equals applying the poses one by one in arrival order |
| SubScenes.CurrentAndNewAgreeOnPoses | src/SceneManager.cc:1980-2004 | the Current set (latest pose per name) and the New set (every batch in order) leave the same poses |
| SubScenes.TickGraph | src/SceneManager.cc:841-854 | a tick stamps the pose time; Current keeps the colours, New takes the snapshot's colours when present |
| SubScenes.TickKeepsWellParented | src/SceneManager.cc:841-854 | a tick keeps a Current graph well parented, and a New graph is well parented after its tick whatever it was before |
| SubScenes.CurrentTickKeepsNodes | src/SceneManager.cc:841-854 | a Current tick never drops or retypes a node, because approved removals are never applied |
| SubScenes.NewTickForgetsHistory | src/SceneManager.cc:1871-1875 | a New tick's nodes do not depend on the scene's previous contents |
| SubScenes.FirstWithId | src/SceneManager.cc:687-700 | the index of the first scene with the id; it is inside the list exactly when some scene has the id |
| SubScenes.FirstWithName | src/SceneManager.cc:703-716 | the index of the first scene with the name; it is inside the list exactly when some scene has the name |
| SubScenes.RemoveIdIntended | src/SceneManager.cc:687-700 | the intended removal: the list shrinks by one exactly when the id is present, the first match leaves, and every other scene stays, in order |
| SubScenes.TickWithRemovals | src/SceneManager.cc:1837-1844 | the intended tick: every approved removal is gone and every other node is as the tick leaves it |
| SubScenes.SubSceneManager.constructor | src/SceneManager.cc:551-555 | a new set has no scenes, nothing buffered and no approved removals |
| SubScenes.SubSceneManager.GetSceneCount | src/SceneManager.cc:562-567 | the number of scenes, zero exactly when the set is empty |
| SubScenes.SubSceneManager.HasSceneWithId | src/SceneManager.cc:571-584 | true exactly when some scene has the id |
| SubScenes.SubSceneManager.HasSceneNamed | src/SceneManager.cc:587-600 | true exactly when some scene has the name |
| SubScenes.SubSceneManager.HasScene | src/SceneManager.cc:603-616 | true exactly when the scene is non-null and in the list |
| SubScenes.SubSceneManager.GetSceneById | src/SceneManager.cc:619-632 | the scene at `FirstWithId`, or null exactly when there is none |
| SubScenes.SubSceneManager.GetSceneNamed | src/SceneManager.cc:635-648 | the scene at `FirstWithName`, or null exactly when there is none |
| SubScenes.SubSceneManager.GetSceneAt | src/SceneManager.cc:651-664 | the scene at the index, or null past the end |
| SubScenes.SubSceneManager.AddScene | src/SceneManager.cc:667-684 | null is ignored and a scene already present is not added twice |
| SubScenes.SubSceneManager.RemoveSceneById | src/SceneManager.cc:687-700 | as written: returns the scene at `FirstWithId` (null when there is none) and leaves the list unchanged |
| SubScenes.SubSceneManager.RemoveSceneNamed | src/SceneManager.cc:703-716 | as written: returns the scene at `FirstWithName` (null when there is none) and leaves the list unchanged |
| SubScenes.SubSceneManager.RemoveScene | src/SceneManager.cc:719-732 | as written: returns the scene when it is in the list and leaves the list unchanged |
| SubScenes.SubSceneManager.RemoveSceneAt | src/SceneManager.cc:735-750 | erases and returns the scene at the index; past the end it returns null and changes nothing |
| SubScenes.SubSceneManager.ClearMessages | src/SceneManager.cc:857-864 | empties every structural buffer and the variant's own pose buffer (and the New snapshot flag); approved removals stay |
| SubScenes.SubSceneManager.Clear | src/SceneManager.cc:773-778 | no scenes and nothing buffered remain |
| SubScenes.SubSceneManager.OnLightUpdate | src/SceneManager.cc:781-788 | a light message is appended only while the set has a scene |
| SubScenes.SubSceneManager.OnModelUpdate | src/SceneManager.cc:791-798 | a model message is appended only while the set has a scene |
| SubScenes.SubSceneManager.OnJointUpdate | src/SceneManager.cc:801-808 | a joint message is appended only while the set has a scene |
| SubScenes.SubSceneManager.OnVisualUpdate | src/SceneManager.cc:811-818 | a visual message is appended only while the set has a scene |
| SubScenes.SubSceneManager.OnSensorUpdate | src/SceneManager.cc:821-828 | a sensor message is appended only while the set has a scene |
| SubScenes.SubSceneManager.OnRemovalUpdate | src/SceneManager.cc:831-838 | an approved removal is recorded only while the set has a scene |
| SubScenes.SubSceneManager.OnPoseUpdate | src/SceneManager.cc:1752-1767 | Current stamps the batch time and overlays the poses by name; New appends the whole batch; both do so even with no scenes |
| SubScenes.SubSceneManager.SetSceneData | src/SceneManager.cc:1858-1862 | the snapshot is stored and marked as received |
| SubScenes.SubSceneManager.ProcessChildSensors | src/SceneManager.cc:1361-1366 | the active scene's graph becomes the rule applied to each sensor in order |
| SubScenes.SubSceneManager.ProcessChildVisuals | src/SceneManager.cc:1353-1359 | the active scene's graph becomes the rule applied to every visual but the first |
| SubScenes.SubSceneManager.ProcessJoint | src/SceneManager.cc:1258-1275 | the active scene's graph becomes the joint rule's result |
| SubScenes.SubSceneManager.ProcessLink | src/SceneManager.cc:1342-1367 | the active scene's graph becomes the link rule's result |
| SubScenes.SubSceneManager.ProcessChildJoints | src/SceneManager.cc:1217-1222 | the active scene's graph becomes the rule applied to each joint in order |
| SubScenes.SubSceneManager.ProcessChildLinks | src/SceneManager.cc:1224-1229 | the active scene's graph becomes the rule applied to each link in order |
| SubScenes.SubSceneManager.ProcessModel | src/SceneManager.cc:1200-1238 | the active scene's graph becomes the model rule's result |
| SubScenes.SubSceneManager.ProcessLights | src/SceneManager.cc:1777-1784 | the active scene's graph becomes the buffered lights applied in order |
| SubScenes.SubSceneManager.ProcessModels | src/SceneManager.cc:1787-1794 | the active scene's graph becomes the buffered models applied in order |
| SubScenes.SubSceneManager.ProcessJoints | src/SceneManager.cc:1797-1804 | the active scene's graph becomes the buffered joints applied in order |
| SubScenes.SubSceneManager.ProcessVisuals | src/SceneManager.cc:1807-1814 | the active scene's graph becomes the buffered visuals applied in order |
| SubScenes.SubSceneManager.ProcessSensors | src/SceneManager.cc:1817-1824 | the active scene's graph becomes the buffered sensors applied in order |
| SubScenes.SubSceneManager.ProcessPoseMap | src/SceneManager.cc:1827-1834 | the active scene's graph becomes the pose map applied |
| SubScenes.SubSceneManager.ProcessPoseBatch | src/SceneManager.cc:1991-2004 | stamps the batch time and applies its poses in order |
| SubScenes.SubSceneManager.ProcessPoseBatches | src/SceneManager.cc:1980-1988 | applies every buffered batch in order; the time is that of the last batch, or unchanged when there is none |
| SubScenes.SubSceneManager.ProcessPoses | src/SceneManager.cc:1827-1834 | Current applies its pose map and New its batches; the resulting time is the set's tick time |
| SubScenes.SubSceneManager.ProcessRemovals | src/SceneManager.cc:1837-1844 | every approved removal is destroyed and every other node stays |
| SubScenes.SubSceneManager.ProcessScene | src/SceneManager.cc:1886-1922 | the active scene's graph becomes the snapshot rebuild |
| SubScenes.SubSceneManager.ProcessSceneLights | src/SceneManager.cc:1909-1914 | the snapshot's lights are applied in order under the root |
| SubScenes.SubSceneManager.ProcessSceneModels | src/SceneManager.cc:1916-1921 | the snapshot's models are applied in order under the root |
| SubScenes.SubSceneManager.ProcessMessages | src/SceneManager.cc:841-854 | the active scene ends as `TickGraph` of its graph and the buffered input, and the pose time becomes the tick time |
| SubScenes.SubSceneManager.TickAt | src/SceneManager.cc:759-770 | one iteration of the tick loop: the scene at the index becomes its expected ticked graph |
| SubScenes.SubSceneManager.TickEach | src/SceneManager.cc:759-770 | every scene of the set is ticked with the same input, and no scene is ticked twice |
| SubScenes.SubSceneManager.TickScenes | src/SceneManager.cc:759-770 | every scene becomes `TickGraph` of its own previous graph |
| SubScenes.SubSceneManager.UpdateScenes | src/SceneManager.cc:759-770 | every scene is ticked once, the buffers are then emptied, and the list, approved removals and snapshot are unchanged |
| Manager.ToUInt32 | src/SceneManager.cc:374 | a request id read as `unsigned int`: an id in range is kept and a negative 32-bit id wraps modulo 2^32 |
| Manager.SceneAtAsWrittenMissesNewScene | src/SceneManager.cc:264-268 | with one Current and one New scene the count is 2, yet index 1 finds nothing |
| Manager.SceneAtIntended | src/SceneManager.cc:264-268 | the intended lookup: the index ranges over the Current scenes followed by the New ones, up to the total count |
| Manager.SceneManager.constructor | src/SceneManager.cc:142-148 | both sets start empty, no request is outstanding, no promotion is due and no removal is pending |
| Manager.SceneManager.GetSceneCount | src/SceneManager.cc:219-225 | the sum of both sets' counts, zero exactly when both are empty |
| Manager.SceneManager.HasSceneWithId | src/SceneManager.cc:229-233 | true exactly when either set has a scene with the id |
| Manager.SceneManager.HasSceneNamed | src/SceneManager.cc:236-240 | true exactly when either set has a scene with the name |
| Manager.SceneManager.HasScene | src/SceneManager.cc:243-247 | true exactly when the scene is in either set |
| Manager.SceneManager.GetSceneById | src/SceneManager.cc:250-254 | the first Current scene with the id, else the first New one, else null |
| Manager.SceneManager.GetSceneNamed | src/SceneManager.cc:257-261 | the first Current scene with the name, else the first New one, else null |
| Manager.SceneManager.GetSceneAt | src/SceneManager.cc:264-268 | as written: the Current scene at the index, else the New scene at the same index |
| Manager.SceneManager.RemoveSceneById | src/SceneManager.cc:287-295 | the first Current scene with the id, else the first New one, else null; no set changes |
| Manager.SceneManager.RemoveSceneNamed | src/SceneManager.cc:298-306 | the first Current scene with the name, else the first New one, else null; no set changes |
| Manager.SceneManager.RemoveScene | src/SceneManager.cc:309-317 | the scene itself when either set holds it, otherwise null |
| Manager.SceneManager.SendSceneRequest | src/SceneManager.cc:360-365 | the new request id becomes the outstanding one and the request is published |
| Manager.SceneManager.AddScene | src/SceneManager.cc:271-284 | the scene joins the New set; a snapshot request is sent only when none is outstanding |
| Manager.SceneManager.RemoveSceneAt | src/SceneManager.cc:320-328 | as written: erases from the Current set at the index, else from the New set at the same index |
| Manager.SceneManager.RemoveScenes | src/SceneManager.cc:331-339 | both sets end empty with nothing buffered; approved removals, the New snapshot and both pose times are kept |
| Manager.SceneManager.PromoteNewScenes | src/SceneManager.cc:513-526 | the New scenes are appended to the Current set in order, without duplicates, and the New set is cleared |
| Manager.SceneManager.MoveCurrentToNew | src/SceneManager.cc:538-544 | every Current scene joins the empty New set in order and is cleared |
| Manager.SceneManager.MoveToNew | src/SceneManager.cc:541-543 | one scene joins the New set and its nodes are cleared |
| Manager.SceneManager.DemoteCurrentScenes | src/SceneManager.cc:529-548 | every scene of either set ends in the New set in index order, with no nodes; the Current set ends empty and nothing is buffered; approved removals, the New snapshot and both pose times are kept |
| Manager.SceneManager.UpdateScenes | src/SceneManager.cc:342-357 | Current scenes tick first; when promotion is due, New scenes then tick from the snapshot and join the Current set; the flag ends cleared; approved removals and the snapshot stay, and only a New tick moves the New pose time |
| Manager.SceneManager.TickAndPromoteNewScenes | src/SceneManager.cc:351-356 | the New scenes tick from the snapshot and are then appended to the Current set; approved removals and the snapshot stay |
| Manager.SceneManager.OnRequest | src/SceneManager.cc:368-378 | an `entity_delete` request records the entity's name under the unsigned request id; other requests change nothing |
| Manager.SceneManager.OnRemovalUpdate | src/SceneManager.cc:503-510 | the name is forwarded to both sets |
| Manager.SceneManager.OnRemovalResponse | src/SceneManager.cc:413-428 | the request entry is always erased; on `success` its name (empty if unknown) is forwarded to both sets |
| Manager.SceneManager.OnSceneResponse | src/SceneManager.cc:397-410 | the snapshot goes to the New set, promotion becomes due and no request is outstanding |
| Manager.SceneManager.OnResponse | src/SceneManager.cc:381-394 | a response with the outstanding id is the snapshot; otherwise an `entity_delete` response erases its request entry and, on `success`, forwards the recorded name (empty if unknown) to each set that has a scene; anything else changes nothing |
| Manager.SceneManager.OnSceneUpdate | src/SceneManager.cc:431-440 | every scene is demoted and cleared, and a fresh snapshot request is sent; approved removals, the New snapshot, both pose times and the promotion flag are kept |
| Manager.SceneManager.OnLightUpdate | src/SceneManager.cc:443-450 | the light message reaches each set that has a scene |
| Manager.SceneManager.OnModelUpdate | src/SceneManager.cc:453-460 | the model message reaches each set that has a scene |
| Manager.SceneManager.OnJointUpdate | src/SceneManager.cc:463-470 | the joint message reaches each set that has a scene |
| Manager.SceneManager.OnVisualUpdate | src/SceneManager.cc:473-480 | the visual message reaches each set that has a scene |
| Manager.SceneManager.OnSensorUpdate | src/SceneManager.cc:483-490 | the sensor message reaches each set that has a scene |
| Manager.SceneManager.OnPoseUpdate | src/SceneManager.cc:493-500 | the Current set overlays the batch by name and takes its time; the New set appends the batch |

## Left out

- Transport: subscriptions, the node, and `Load`/`Init`/`Fini` are left out. A snapshot request's id is a parameter, and published requests are a list of ids.
- Mutexes and locking are left out. Each operation is modelled as atomic.
- `ParseFromString` is left out: the snapshot arrives already parsed as a `SceneMsg`.
- The mesh manager, logging and `PreRender` are left out. A mesh geometry records its descriptor.
- The render engine's scene is reduced to a graph of named nodes. A node created by the engine gets default settings.
- The scene's implicit root visual is the `Root` parent handle, not a node in the map.
- Creating a node whose name is taken fails in the model. Where the source would then use a null handle, the model skips the rest of that message.
- `Scene::Clear` is assumed to destroy every node below the root and to keep the ambient light, the background colour and the simulation time. The render engine is not part of this model, so this is an assumption about it (`Scenes.Scene.Clear`).
- Floating-point values are reals, and `common::Time` is kept as its (sec, nsec) pair without normalisation.
- The iteration order of the Current pose map (`std::map`) is left arbitrary. Its keys are distinct, so the resulting graph does not depend on it.
- The header `SceneManagerPrivate.hh` is not part of this model. The model assumes that `OnPoseUpdate`, `ClearMessages`, `ProcessMessages` and `ProcessPoses` are virtual, so that `Clear` (773-778) and `UpdateScenes` (759-770), called on the base class, reach the Current or New behaviour; the `variant` tag stands for that dispatch.
- Manager.SceneManager.GetSceneCount: the unsigned sum of both counts is not wrapped at 2^32.
- A tick never applies approved removals, as in the source (see Findings). `ProcessRemovals` is modelled and specified on its own, and the corrected members of the Findings sit beside the as-written operations, which the coordinator keeps using.
- The renderer plugins, the Ogre selection buffer and the header declarations are not part of this model.

## Findings

| source | as written | input that shows it | evidently intended | confidence | as-written member | corrected member |
|---|---|---|---|---|---|---|
| src/SceneManager.cc:264-268 | `GetSceneAt` looks in the New set at the same index it used for the Current set. `RemoveSceneAt` at 320-328 does the same. | One Current scene A and one New scene B: `GetSceneCount()` is 2, but `GetSceneAt(1)` returns null, so B cannot be reached by index. | Index the Current scenes followed by the New scenes, up to the total count. | medium, not executed | Manager.SceneAtAsWrittenMissesNewScene | Manager.SceneAtIntended |
| src/SceneManager.cc:687-700 | `SubSceneManager::RemoveScene(id)` returns the matching scene but never erases it. The name and pointer overloads at 703-732 do the same. | Set [A]: `RemoveScene(A.id)` returns A and the set is still [A]. | Erase the first scene with the id and return it. | high, not executed | SubScenes.SubSceneManager.RemoveSceneById | SubScenes.RemoveIdIntended |
| src/SceneManager.cc:841-854 | `ProcessMessages` never calls `ProcessRemovals` (1837-1844, 2007-2014), and approved removals are never cleared. | Current set with a scene holding node "box": an approved removal of "box" followed by `UpdateScenes()` still leaves "box" in the scene. | Each tick destroys the approved removals. | medium, not executed | SubScenes.CurrentTickKeepsNodes | SubScenes.TickWithRemovals |
