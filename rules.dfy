/**
 * The graph-building rules of SubSceneManager (the `Process*`, `Get*`,
 * `Create*` and `Set*` members of src/SceneManager.cc) as functions on the
 * active scene's node map.  The imperative `Process*` methods of
 * SubScenes.SubSceneManager are proved to compute exactly these.
 *
 * Where the source would dereference a null handle (a node could not be
 * created because its name is taken by a node of another kind), the rule
 * skips the rest of the message.
 */
module GraphRules {
  import opened Wrappers
  import opened Msgs
  import opened Convert
  import opened Scenes

  // ---------------------------------------------------------------- handles

  lemma ExtendsTransitive(a: NodeMap, b: NodeMap, c: NodeMap)
    requires Extends(a, b) && Extends(b, c)
    ensures Extends(a, c)
  {
  }

  /** SubSceneManager::GetParent: an empty or unknown parent name means the root visual. */
  function GetParent(nodes: NodeMap, name: string): (r: ParentRef)
    ensures ValidParent(nodes, r)
    ensures r == Root <==> name == "" || !HasVisual(nodes, name)
    ensures r.Named? ==> r.name == name
  {
    if name == "" then Root
    else if HasVisual(nodes, name) then Named(name)
    else Root
  }

  /** The node map after a lookup-or-create, and the handle it yields (None: no visual). */
  datatype Lookup = Lookup(nodes: NodeMap, handle: Option<string>)

  /**
   * SubSceneManager::GetVisual(hasId, id, name, parent): find the visual by
   * name, or create it with the id (when given) and attach it to `parent`.
   */
  function GetVisual(nodes: NodeMap, id: Option<nat>, name: string, parent: ParentRef): (r: Lookup)
    ensures r.handle.Some? <==> name !in nodes || HasVisual(nodes, name)
    ensures r.handle.Some? ==> r.handle.value == name && HasVisual(r.nodes, name)
    ensures name in nodes ==> r.nodes == nodes
    ensures name !in nodes ==> r.nodes == nodes[name := NewNode(VisualNode, id, parent)]
  {
    if HasVisual(nodes, name) then Lookup(nodes, Some(name))
    else match CreateNode(nodes, VisualNode, id, name, parent)
      case Some(created) => Lookup(created, Some(name))
      case None => Lookup(nodes, None)
  }

  /** The node GetVisual yields for `name`: the existing one, or a fresh visual under `parent`. */
  function FoundOrNew(nodes: NodeMap, name: string, id: Option<nat>, parent: ParentRef): Node {
    if name in nodes then nodes[name] else NewNode(VisualNode, id, parent)
  }

  // --------------------------------------------------------- pose and scale

  function SetPose(nodes: NodeMap, name: string, p: PoseMsg): NodeMap
    requires name in nodes
  {
    nodes[name := nodes[name].(pose := Some(ConvertPose(p)))]
  }

  function SetPoseIf(nodes: NodeMap, name: string, p: Option<PoseMsg>): NodeMap
    requires name in nodes
  {
    if p.Some? then SetPose(nodes, name, p.value) else nodes
  }

  function SetScale(nodes: NodeMap, name: string, s: Vector3): NodeMap
    requires name in nodes
  {
    nodes[name := nodes[name].(scale := Some(s))]
  }

  function SetScaleIf(nodes: NodeMap, name: string, s: Option<Vector3dMsg>): NodeMap
    requires name in nodes
  {
    if s.Some? then SetScale(nodes, name, ConvertVector(s.value)) else nodes
  }

  // --------------------------------------------------------------- geometry

  /** The member functions the geometry table can point at. */
  datatype GeomFunc =
    | ProcessBox | ProcessCone | ProcessCylinder | ProcessEmpty | ProcessMesh | ProcessPlane | ProcessSphere

  /**
   * SubSceneManager::CreateGeometryFunctionMap: the type-to-function table.
   * CONE is not registered, and neither is any other type.
   */
  function GeomFunctions(t: GeomType): (r: Option<GeomFunc>)
    ensures r.None? <==> t.Cone? || t.OtherGeomType?
    ensures r.Some? ==> r.value != ProcessCone
  {
    match t
    case Box => Some(ProcessBox)
    case Cylinder => Some(ProcessCylinder)
    case Empty => Some(ProcessEmpty)
    case Mesh => Some(ProcessMesh)
    case Plane => Some(ProcessPlane)
    case Sphere => Some(ProcessSphere)
    case Cone => None
    case OtherGeomType(_) => None
  }

  /** The descriptor ProcessMesh builds: sub-mesh name and centring only when given. */
  function MeshDescriptorOf(m: MeshGeomMsg): MeshDescriptor {
    MeshDescriptor(
      m.filename,
      if m.submesh.Some? then m.submesh.value else "",
      if m.centerSubmesh.Some? then m.centerSubmesh.value else false)
  }

  /**
   * One geometry handler applied to the parent visual: box, cylinder, plane
   * and sphere encode their size in the parent's local scale; a mesh sets
   * the scale only when the message has one; the empty handler does nothing.
   */
  function ApplyGeomFunc(f: GeomFunc, msg: GeometryMsg, v: Node): Node {
    match f
    case ProcessBox =>
      v.(scale := Some(ConvertVector(msg.box.size)), geometries := v.geometries + [BoxGeometry])
    case ProcessCone =>
      v.(geometries := v.geometries + [ConeGeometry])
    case ProcessCylinder =>
      var c := msg.cylinder;
      v.(scale := Some(Vector3(c.radius, c.radius, c.length)), geometries := v.geometries + [CylinderGeometry])
    case ProcessEmpty =>
      v
    case ProcessMesh =>
      var m := msg.mesh;
      var scaled := if m.scale.Some? then v.(scale := Some(ConvertVector(m.scale.value))) else v;
      scaled.(geometries := scaled.geometries + [MeshGeometry(MeshDescriptorOf(m))])
    case ProcessPlane =>
      var s := msg.plane.size;
      v.(scale := Some(Vector3(s.x, s.y, 1.0)), geometries := v.geometries + [PlaneGeometry])
    case ProcessSphere =>
      var r := msg.sphere.radius;
      v.(scale := Some(Vector3(r, r, r)), geometries := v.geometries + [SphereGeometry])
  }

  /**
   * The geometries a visual holds after ProcessGeometry: one of the message's
   * type for every registered handler that attaches one, none for EMPTY and
   * for an unregistered type.
   */
  function GeometriesFor(msg: GeometryMsg): (r: seq<Geometry>)
    ensures |r| == 1 <==> GeomFunctions(msg.geomType).Some? && !msg.geomType.Empty?
    ensures |r| <= 1
  {
    match msg.geomType
    case Box => [BoxGeometry]
    case Cylinder => [CylinderGeometry]
    case Mesh => [MeshGeometry(MeshDescriptorOf(msg.mesh))]
    case Plane => [PlaneGeometry]
    case Sphere => [SphereGeometry]
    case _ => []
  }

  /**
   * The visual's local scale after ProcessGeometry, given its scale before:
   * box, cylinder, plane and sphere encode their size in it, a mesh sets it
   * only when the message has one, anything else keeps it.
   */
  function ScaleFor(msg: GeometryMsg, before: Option<Vector3>): Option<Vector3> {
    match msg.geomType
    case Box => Some(ConvertVector(msg.box.size))
    case Cylinder => Some(Vector3(msg.cylinder.radius, msg.cylinder.radius, msg.cylinder.length))
    case Plane => Some(Vector3(msg.plane.size.x, msg.plane.size.y, 1.0))
    case Sphere => Some(Vector3(msg.sphere.radius, msg.sphere.radius, msg.sphere.radius))
    case Mesh => if msg.mesh.scale.Some? then Some(ConvertVector(msg.mesh.scale.value)) else before
    case _ => before
  }

  /**
   * SubSceneManager::ProcessGeometry: drop the visual's geometries, then run
   * the registered handler, or the EMPTY one for an unregistered type.
   */
  function ProcessGeometry(nodes: NodeMap, msg: GeometryMsg, visual: string): (r: NodeMap)
    requires visual in nodes
    ensures r.Keys == nodes.Keys
    ensures forall n :: n in nodes && n != visual ==> r[n] == nodes[n]
    ensures r[visual] == nodes[visual].(geometries := GeometriesFor(msg), scale := ScaleFor(msg, nodes[visual].scale))
  {
    nodes[visual := ApplyGeometry(nodes[visual], msg)]
  }

  /** ProcessGeometry on the visual itself: only its geometries and scale change, as the table says. */
  function ApplyGeometry(v: Node, msg: GeometryMsg): (r: Node)
    ensures r == v.(geometries := GeometriesFor(msg), scale := ScaleFor(msg, v.scale))
  {
    var f := if GeomFunctions(msg.geomType).Some? then GeomFunctions(msg.geomType).value else ProcessEmpty;
    ApplyGeomFunc(f, msg, v.(geometries := []))
  }

  // --------------------------------------------------------------- material

  function ConvertColorIf(c: Option<ColorMsg>): Option<Color> {
    if c.Some? then Some(ConvertColor(c.value)) else None
  }

  /**
   * SubSceneManager::CreateMaterial: a fresh material on which only the
   * fields present in the message are set; every absent field keeps the
   * engine default.
   */
  function CreateMaterial(m: MaterialMsg): (r: Material)
    ensures r.ambient.Some? == m.ambient.Some? && r.diffuse.Some? == m.diffuse.Some?
    ensures r.specular.Some? == m.specular.Some? && r.emissive.Some? == m.emissive.Some?
    ensures r.lightingEnabled == m.lighting && r.normalMap == m.normalMap
    ensures r.shaderType.Some? == m.shaderType.Some?
    ensures m.shaderType.Some? && m.shaderType.value.OtherShaderType? ==> r.shaderType == Some(StUnknown)
    ensures r.ambient == ConvertColorIf(m.ambient) && r.diffuse == ConvertColorIf(m.diffuse)
    ensures r.specular == ConvertColorIf(m.specular) && r.emissive == ConvertColorIf(m.emissive)
    ensures m.shaderType.Some? ==> r.shaderType == Some(ConvertShaderType(m.shaderType.value))
  {
    Material(
      ConvertColorIf(m.ambient),
      ConvertColorIf(m.diffuse),
      ConvertColorIf(m.specular),
      ConvertColorIf(m.emissive),
      m.lighting,
      m.normalMap,
      if m.shaderType.Some? then Some(ConvertShaderType(m.shaderType.value)) else None)
  }

  // ----------------------------------------------------------------- lights

  /** The node kind a declared light type creates; None for an invalid type. */
  function LightKindOf(t: LightType): Option<NodeKind> {
    match t
    case Point => Some(PointLightNode)
    case Spot => Some(SpotLightNode)
    case Directional => Some(DirectionalLightNode)
    case OtherLightType(_) => None
  }

  function SetIf<T>(current: Option<T>, given: Option<T>): Option<T> {
    if given.Some? then given else current
  }

  /**
   * SubSceneManager::ProcessLightImpl: pose, colours, attenuation and
   * shadows each take the message's value when it has one; the direction,
   * the spot cone and everything else about the node stay.
   */
  function ApplyLightImpl(n: Node, msg: LightMsg): (r: Node)
    ensures r.kind == n.kind && r.id == n.id && r.parent == n.parent
    ensures r.scale == n.scale && r.geometries == n.geometries && r.material == n.material
    ensures r.pose == (if msg.pose.Some? then Some(ConvertPose(msg.pose.value)) else n.pose)
    ensures r.light.diffuse == (if msg.diffuse.Some? then Some(ConvertColor(msg.diffuse.value)) else n.light.diffuse)
    ensures r.light.specular == (if msg.specular.Some? then Some(ConvertColor(msg.specular.value)) else n.light.specular)
    ensures r.light.attenuationConstant
            == (if msg.attenuationConstant.Some? then msg.attenuationConstant else n.light.attenuationConstant)
    ensures r.light.attenuationLinear == (if msg.attenuationLinear.Some? then msg.attenuationLinear else n.light.attenuationLinear)
    ensures r.light.attenuationQuadratic
            == (if msg.attenuationQuadratic.Some? then msg.attenuationQuadratic else n.light.attenuationQuadratic)
    ensures r.light.attenuationRange == (if msg.range.Some? then msg.range else n.light.attenuationRange)
    ensures r.light.castShadows == (if msg.castShadows.Some? then msg.castShadows else n.light.castShadows)
    ensures r.light.direction == n.light.direction && r.light.innerAngle == n.light.innerAngle
    ensures r.light.outerAngle == n.light.outerAngle && r.light.falloff == n.light.falloff
  {
    var s := n.light;
    n.(pose := if msg.pose.Some? then Some(ConvertPose(msg.pose.value)) else n.pose,
       light := s.(diffuse := SetIf(s.diffuse, ConvertColorIf(msg.diffuse)),
                   specular := SetIf(s.specular, ConvertColorIf(msg.specular)),
                   attenuationConstant := SetIf(s.attenuationConstant, msg.attenuationConstant),
                   attenuationLinear := SetIf(s.attenuationLinear, msg.attenuationLinear),
                   attenuationQuadratic := SetIf(s.attenuationQuadratic, msg.attenuationQuadratic),
                   attenuationRange := SetIf(s.attenuationRange, msg.range),
                   castShadows := SetIf(s.castShadows, msg.castShadows)))
  }

  /** The direction the message gives, or the one `n` has. */
  function DirectionFor(n: Node, msg: LightMsg): Option<Vector3> {
    if msg.direction.Some? then Some(ConvertVector(msg.direction.value)) else n.light.direction
  }

  /** `after` with its direction and spot cone put back to those of `before`. */
  function WithoutDirectionAndCone(after: Node, before: Node): Node {
    after.(light := after.light.(direction := before.light.direction, innerAngle := before.light.innerAngle,
                                 outerAngle := before.light.outerAngle, falloff := before.light.falloff))
  }

  /** The direction step shared by ProcessDirectionalLightImpl and ProcessSpotLightImpl: nothing else changes. */
  function ApplyDirection(n: Node, msg: LightMsg): (r: Node)
    ensures r.light.direction == DirectionFor(n, msg)
    ensures WithoutDirectionAndCone(r, n) == n
    ensures r.light.innerAngle == n.light.innerAngle && r.light.outerAngle == n.light.outerAngle
    ensures r.light.falloff == n.light.falloff
  {
    if msg.direction.Some? then n.(light := n.light.(direction := Some(ConvertVector(msg.direction.value)))) else n
  }

  /**
   * ProcessSpotLightImpl: direction and cone each take the message's value
   * when present; every other setting is what ProcessLightImpl makes it.
   */
  function ApplySpotImpl(n: Node, msg: LightMsg): (r: Node)
    ensures r.light.direction == DirectionFor(n, msg)
    ensures r.light.innerAngle == (if msg.spotInnerAngle.Some? then msg.spotInnerAngle else n.light.innerAngle)
    ensures r.light.outerAngle == (if msg.spotOuterAngle.Some? then msg.spotOuterAngle else n.light.outerAngle)
    ensures r.light.falloff == (if msg.spotFalloff.Some? then msg.spotFalloff else n.light.falloff)
    ensures WithoutDirectionAndCone(r, n) == ApplyLightImpl(n, msg)
  {
    var d := ApplyDirection(n, msg);
    var s := d.light;
    ApplyLightImpl(d.(light := s.(innerAngle := SetIf(s.innerAngle, msg.spotInnerAngle),
                                  outerAngle := SetIf(s.outerAngle, msg.spotOuterAngle),
                                  falloff := SetIf(s.falloff, msg.spotFalloff))), msg)
  }

  /**
   * The Process*LightImpl for a light of kind `k`: spot and directional
   * lights take the direction, only a spot light takes the cone, and the
   * general settings are those of ProcessLightImpl for every kind.
   */
  function ApplyTypedLight(n: Node, msg: LightMsg, k: NodeKind): (r: Node)
    ensures r.light.direction == if k.SpotLightNode? || k.DirectionalLightNode? then DirectionFor(n, msg) else n.light.direction
    ensures k.SpotLightNode? ==> r == ApplySpotImpl(n, msg)
    ensures !k.SpotLightNode? ==>
              r.light.innerAngle == n.light.innerAngle && r.light.outerAngle == n.light.outerAngle
              && r.light.falloff == n.light.falloff
    ensures WithoutDirectionAndCone(r, n) == ApplyLightImpl(n, msg)
  {
    match k
    case SpotLightNode => ApplySpotImpl(n, msg)
    case DirectionalLightNode => ApplyLightImpl(ApplyDirection(n, msg), msg)
    case _ => ApplyLightImpl(n, msg)
  }

  /**
   * SubSceneManager::ProcessLight(msg, parent).  A declared type selects the
   * light variant, found by name or created under `parent`; an invalid type
   * is skipped.  A message without a type only updates an existing light.
   */
  function ProcessLight(nodes: NodeMap, msg: LightMsg, parent: ParentRef): (r: NodeMap)
    ensures Extends(nodes, r)
    ensures r.Keys <= nodes.Keys + {msg.name}
    ensures forall n :: n in nodes && n != msg.name ==> r[n] == nodes[n]
    ensures msg.name in r && msg.name !in nodes ==> r[msg.name].parent == parent
    ensures msg.name in nodes ==> r[msg.name].parent == nodes[msg.name].parent
    ensures msg.lightType.None? ==> r.Keys == nodes.Keys
    ensures msg.lightType.None? && (msg.name !in nodes || !IsLightKind(nodes[msg.name].kind)) ==> r == nodes
    ensures msg.lightType.Some? && LightKindOf(msg.lightType.value).None? ==> r == nodes
    ensures msg.name in r && msg.name !in nodes ==> r[msg.name].kind == LightKindOf(msg.lightType.value).value
    ensures msg.lightType.Some? && LightKindOf(msg.lightType.value).Some? ==>
              var k := LightKindOf(msg.lightType.value).value;
              if msg.name !in nodes || nodes[msg.name].kind == k then
                var base := if msg.name in nodes then nodes[msg.name] else NewNode(k, None, parent);
                msg.name in r && r[msg.name] == ApplyTypedLight(base, msg, k)
              else
                r == nodes
    ensures msg.lightType.None? && msg.name in nodes && IsLightKind(nodes[msg.name].kind) ==>
              r[msg.name] == ApplyLightImpl(nodes[msg.name], msg)
  {
    if msg.lightType.Some? then
      match LightKindOf(msg.lightType.value)
      case None => nodes
      case Some(k) =>
        if msg.name in nodes && nodes[msg.name].kind == k then
          nodes[msg.name := ApplyTypedLight(nodes[msg.name], msg, k)]
        else
          match CreateNode(nodes, k, None, msg.name, parent)
          case Some(created) => created[msg.name := ApplyTypedLight(created[msg.name], msg, k)]
          case None => nodes
    else if msg.name in nodes && IsLightKind(nodes[msg.name].kind) then
      nodes[msg.name := ApplyLightImpl(nodes[msg.name], msg)]
    else
      nodes
  }

  // ---------------------------------------------------- visuals and sensors

  /**
   * SubSceneManager::ProcessVisual(msg, parent): find or create the visual,
   * then set pose, scale, geometry and a fresh material, each if present.
   */
  function ProcessVisual(nodes: NodeMap, msg: VisualMsg, parent: ParentRef): (r: NodeMap)
    ensures Extends(nodes, r)
    ensures r.Keys <= nodes.Keys + {msg.name}
    ensures forall n :: n in nodes && n != msg.name ==> r[n] == nodes[n]
    ensures msg.name in r && msg.name !in nodes ==> r[msg.name].parent == parent
    ensures msg.name in nodes ==> r[msg.name].parent == nodes[msg.name].parent
    ensures msg.name !in nodes || HasVisual(nodes, msg.name) ==>
              msg.name in r && r[msg.name] == DressVisual(FoundOrNew(nodes, msg.name, msg.id, parent), msg)
    ensures msg.name in nodes && !HasVisual(nodes, msg.name) ==> r == nodes
  {
    var got := GetVisual(nodes, msg.id, msg.name, parent);
    if got.handle.None? then nodes
    else got.nodes[msg.name := DressVisual(got.nodes[msg.name], msg)]
  }

  /**
   * The part of ProcessVisual after the lookup: pose, scale, geometry and a
   * fresh material, each if present.  A geometry is applied after the
   * message's scale, so a box, cylinder, plane or sphere overrides it.
   */
  function DressVisual(v: Node, msg: VisualMsg): (r: Node)
    ensures r.kind == v.kind && r.id == v.id && r.parent == v.parent && r.light == v.light
    ensures r.pose == (if msg.pose.Some? then Some(ConvertPose(msg.pose.value)) else v.pose)
    ensures var given := if msg.scale.Some? then Some(ConvertVector(msg.scale.value)) else v.scale;
            r.scale == (if msg.geometry.Some? then ScaleFor(msg.geometry.value, given) else given)
    ensures r.geometries == (if msg.geometry.Some? then GeometriesFor(msg.geometry.value) else v.geometries)
    ensures r.material == (if msg.material.Some? then Some(CreateMaterial(msg.material.value)) else v.material)
  {
    var posed := if msg.pose.Some? then v.(pose := Some(ConvertPose(msg.pose.value))) else v;
    var scaled := if msg.scale.Some? then posed.(scale := Some(ConvertVector(msg.scale.value))) else posed;
    var shaped := if msg.geometry.Some? then ApplyGeometry(scaled, msg.geometry.value) else scaled;
    if msg.material.Some? then shaped.(material := Some(CreateMaterial(msg.material.value))) else shaped
  }

  /**
   * SubSceneManager::ProcessSensor(msg, parent): only a camera sensor is
   * materialised, found by name or created under `parent`; nothing else
   * about it is updated.
   */
  function ProcessSensor(nodes: NodeMap, msg: SensorMsg, parent: ParentRef): (r: NodeMap)
    ensures Extends(nodes, r)
    ensures r.Keys <= nodes.Keys + {msg.name}
    ensures forall n :: n in nodes ==> r[n] == nodes[n]
    ensures !msg.hasCamera ==> r == nodes
    ensures msg.name in r && msg.name !in nodes ==> r[msg.name] == NewNode(CameraNode, msg.id, parent)
    ensures msg.hasCamera && msg.name !in nodes ==> r == nodes[msg.name := NewNode(CameraNode, msg.id, parent)]
    ensures msg.name in nodes ==> r == nodes
  {
    if !msg.hasCamera then nodes
    else if msg.name in nodes && nodes[msg.name].kind == CameraNode then nodes
    else match CreateNode(nodes, CameraNode, msg.id, msg.name, parent)
      case Some(created) => created
      case None => nodes
  }

  /** The sensors of a joint or link, in order, under one parent. */
  function ApplySensors(nodes: NodeMap, ss: seq<SensorMsg>, parent: ParentRef): (r: NodeMap)
    ensures Extends(nodes, r)
  {
    if |ss| == 0 then nodes
    else ProcessSensor(ApplySensors(nodes, ss[..|ss| - 1], parent), ss[|ss| - 1], parent)
  }

  /** The visuals of a model or link (already without the skipped first entry), under one parent. */
  function ApplyVisuals(nodes: NodeMap, vs: seq<VisualMsg>, parent: ParentRef): (r: NodeMap)
    ensures Extends(nodes, r)
  {
    if |vs| == 0 then nodes
    else ProcessVisual(ApplyVisuals(nodes, vs[..|vs| - 1], parent), vs[|vs| - 1], parent)
  }

  /** The loops of ProcessModel and ProcessLink start at index 1: entry 0 is never processed. */
  function SkipFirst<T>(s: seq<T>): (r: seq<T>)
    ensures |s| > 0 ==> |r| == |s| - 1 && forall i :: 0 <= i < |r| ==> r[i] == s[i + 1]
    ensures |s| == 0 ==> r == []
  {
    if |s| == 0 then [] else s[1..]
  }

  // ------------------------------------------------- joints, links, models

  /** SubSceneManager::ProcessJoint(msg, parent): find or create, pose, then its sensors. */
  function ProcessJoint(nodes: NodeMap, msg: JointMsg, parent: ParentRef): (r: NodeMap)
    ensures Extends(nodes, r)
  {
    var got := GetVisual(nodes, msg.id, msg.name, parent);
    if got.handle.None? then nodes
    else ApplySensors(SetPoseIf(got.nodes, msg.name, msg.pose), msg.sensors, Named(msg.name))
  }

  function ApplyJoints(nodes: NodeMap, js: seq<JointMsg>, parent: ParentRef): (r: NodeMap)
    ensures Extends(nodes, r)
  {
    if |js| == 0 then nodes
    else ProcessJoint(ApplyJoints(nodes, js[..|js| - 1], parent), js[|js| - 1], parent)
  }

  /** SubSceneManager::ProcessLink: find or create, pose, visuals 1..n-1, then sensors. */
  function ProcessLink(nodes: NodeMap, msg: LinkMsg, parent: ParentRef): (r: NodeMap)
    ensures Extends(nodes, r)
  {
    var got := GetVisual(nodes, msg.id, msg.name, parent);
    if got.handle.None? then nodes
    else
      var posed := SetPoseIf(got.nodes, msg.name, msg.pose);
      var withVisuals := ApplyVisuals(posed, SkipFirst(msg.visuals), Named(msg.name));
      ApplySensors(withVisuals, msg.sensors, Named(msg.name))
  }

  function ApplyLinks(nodes: NodeMap, ls: seq<LinkMsg>, parent: ParentRef): (r: NodeMap)
    ensures Extends(nodes, r)
  {
    if |ls| == 0 then nodes
    else ProcessLink(ApplyLinks(nodes, ls[..|ls| - 1], parent), ls[|ls| - 1], parent)
  }

  /**
   * SubSceneManager::ProcessModel(msg, parent): find or create, pose, scale,
   * then its joints, its links and its visuals 1..n-1, in that order.
   */
  function ProcessModel(nodes: NodeMap, msg: ModelMsg, parent: ParentRef): (r: NodeMap)
    ensures Extends(nodes, r)
  {
    var got := GetVisual(nodes, msg.id, msg.name, parent);
    if got.handle.None? then nodes
    else
      var m := Named(msg.name);
      var posed := SetPoseIf(got.nodes, msg.name, msg.pose);
      var scaled := SetScaleIf(posed, msg.name, msg.scale);
      var withJoints := ApplyJoints(scaled, msg.joints, m);
      var withLinks := ApplyLinks(withJoints, msg.links, m);
      var r := ApplyVisuals(withLinks, SkipFirst(msg.visuals), m);
      assert Extends(nodes, scaled);
      ExtendsTransitive(nodes, scaled, withJoints);
      ExtendsTransitive(nodes, withJoints, withLinks);
      ExtendsTransitive(nodes, withLinks, r);
      r
  }

  // ------------------------------------------- buffered messages, in order

  /** The buffered lights; ProcessLight(msg) always uses the root visual as parent. */
  function ApplyLights(nodes: NodeMap, ls: seq<LightMsg>): (r: NodeMap)
    ensures Extends(nodes, r)
  {
    if |ls| == 0 then nodes
    else ProcessLight(ApplyLights(nodes, ls[..|ls| - 1]), ls[|ls| - 1], Root)
  }

  /** The buffered models; ProcessModel(msg) always uses the root visual as parent. */
  function ApplyModels(nodes: NodeMap, ms: seq<ModelMsg>): (r: NodeMap)
    ensures Extends(nodes, r)
  {
    if |ms| == 0 then nodes
    else ProcessModel(ApplyModels(nodes, ms[..|ms| - 1]), ms[|ms| - 1], Root)
  }

  /** The buffered joints; each resolves its own parent by name. */
  function ApplyJointMsgs(nodes: NodeMap, js: seq<JointMsg>): (r: NodeMap)
    ensures Extends(nodes, r)
  {
    if |js| == 0 then nodes
    else
      var before := ApplyJointMsgs(nodes, js[..|js| - 1]);
      ProcessJoint(before, js[|js| - 1], GetParent(before, js[|js| - 1].parent))
  }

  /** The buffered visuals; each resolves its own parent by name. */
  function ApplyVisualMsgs(nodes: NodeMap, vs: seq<VisualMsg>): (r: NodeMap)
    ensures Extends(nodes, r)
  {
    if |vs| == 0 then nodes
    else
      var before := ApplyVisualMsgs(nodes, vs[..|vs| - 1]);
      ProcessVisual(before, vs[|vs| - 1], GetParent(before, vs[|vs| - 1].parentName))
  }

  /** The buffered sensors; each resolves its own parent by name. */
  function ApplySensorMsgs(nodes: NodeMap, ss: seq<SensorMsg>): (r: NodeMap)
    ensures Extends(nodes, r)
  {
    if |ss| == 0 then nodes
    else
      var before := ApplySensorMsgs(nodes, ss[..|ss| - 1]);
      ProcessSensor(before, ss[|ss| - 1], GetParent(before, ss[|ss| - 1].parent))
  }

  /** The per-kind buffers a scene set holds between ticks (poses aside). */
  datatype Pending = Pending(
    lights: seq<LightMsg>,
    models: seq<ModelMsg>,
    joints: seq<JointMsg>,
    visuals: seq<VisualMsg>,
    sensors: seq<SensorMsg>)

  /** Lights, then models, joints, visuals and sensors: the fixed order of ProcessMessages. */
  function ApplyStructure(nodes: NodeMap, p: Pending): (r: NodeMap)
    ensures Extends(nodes, r)
  {
    var lit := ApplyLights(nodes, p.lights);
    var modelled := ApplyModels(lit, p.models);
    var jointed := ApplyJointMsgs(modelled, p.joints);
    var visualised := ApplyVisualMsgs(jointed, p.visuals);
    ApplySensorMsgs(visualised, p.sensors)
  }

  // ------------------------------------------------------------------ poses

  /**
   * SubSceneManager::ProcessPose: a standalone pose moves the node of that
   * name, whatever its kind; a pose for a missing node is skipped.
   */
  function ProcessPose(nodes: NodeMap, p: PoseMsg): (r: NodeMap)
    ensures r.Keys == nodes.Keys
    ensures forall n :: n in nodes && n != p.name ==> r[n] == nodes[n]
    ensures p.name in nodes ==> r[p.name] == nodes[p.name].(pose := Some(ConvertPose(p)))
  {
    if p.name in nodes then SetPose(nodes, p.name, p) else nodes
  }

  /** The poses of one batch, in order. */
  function ApplyPoses(nodes: NodeMap, ps: seq<PoseMsg>): (r: NodeMap)
    ensures r.Keys == nodes.Keys
  {
    if |ps| == 0 then nodes
    else ProcessPose(ApplyPoses(nodes, ps[..|ps| - 1]), ps[|ps| - 1])
  }

  /** NewSceneManager::ProcessPoses: every buffered batch, in arrival order. */
  function ApplyPoseBatches(nodes: NodeMap, bs: seq<PosesStampedMsg>): (r: NodeMap)
    ensures r.Keys == nodes.Keys
  {
    if |bs| == 0 then nodes
    else ApplyPoses(ApplyPoseBatches(nodes, bs[..|bs| - 1]), bs[|bs| - 1].poses)
  }

  /** The pose timestamp after the batches: the last batch's, or `t` when there is none. */
  function LastPoseTime(bs: seq<PosesStampedMsg>, t: Time): Time {
    if |bs| == 0 then t else Time(bs[|bs| - 1].time.sec, bs[|bs| - 1].time.nsec)
  }

  /**
   * CurrentSceneManager::ProcessPoses: every entry of the name-keyed pose
   * map.  Keys are distinct, so the iteration order of the map does not
   * matter; each node named in the map gets that pose.
   */
  function ApplyPoseMap(nodes: NodeMap, pm: map<string, PoseMsg>): (r: NodeMap)
    ensures r.Keys == nodes.Keys
  {
    map n | n in nodes :: if n in pm then nodes[n].(pose := Some(ConvertPose(pm[n]))) else nodes[n]
  }

  // ------------------------------------------------------- scene snapshot

  /** ProcessScene builds scene colours from r, g and b only; alpha takes Color's default, 1. */
  function OpaqueColor(c: ColorMsg): Color {
    Color(c.r, c.g, c.b, 1.0)
  }

  /**
   * NewSceneManager::ProcessScene: clear the scene, then apply ambient and
   * background (if present) and every snapshot light and model under the
   * root visual.  The nodes depend on the snapshot alone.
   */
  function ProcessScene(g: Graph, s: SceneMsg): (r: Graph)
    ensures r.nodes == ApplyModels(ApplyLights(map[], s.lights), s.models)
    ensures r.ambient == if s.ambient.Some? then Some(OpaqueColor(s.ambient.value)) else g.ambient
    ensures r.background == if s.background.Some? then Some(OpaqueColor(s.background.value)) else g.background
    ensures r.simTime == g.simTime
  {
    var cleared := g.(nodes := map[]);
    var withAmbient := if s.ambient.Some? then cleared.(ambient := Some(OpaqueColor(s.ambient.value))) else cleared;
    var withBackground :=
      if s.background.Some? then withAmbient.(background := Some(OpaqueColor(s.background.value))) else withAmbient;
    var lit := withBackground.(nodes := ApplyLights(withBackground.nodes, s.lights));
    lit.(nodes := ApplyModels(lit.nodes, s.models))
  }
}
