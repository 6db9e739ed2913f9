/**
 * The render-engine Scene the core drives, reduced to what the core can
 * observe: a map from node name to node (kind, id, parent, pose, scale,
 * attached geometries, material, light settings), plus ambient light,
 * background colour and simulation time.  The root visual is implicit: it
 * is always present and is the parent `Root`.
 *
 * Engine behaviour assumed here (the engine is not part of this model):
 * creating a node under a name that is already taken is refused, and
 * `Clear` destroys every node except the root while keeping the scene-wide
 * settings.  `None` in a node field means "engine default".
 */
module Scenes {
  import opened Wrappers
  import opened Convert

  datatype NodeKind = VisualNode | PointLightNode | SpotLightNode | DirectionalLightNode | CameraNode

  predicate IsLightKind(k: NodeKind) {
    k.PointLightNode? || k.SpotLightNode? || k.DirectionalLightNode?
  }

  /** A parent handle: the scene's root visual, or the visual with that name. */
  datatype ParentRef = Root | Named(name: string)

  datatype MeshDescriptor = MeshDescriptor(meshName: string, subMeshName: string, centerSubMesh: bool)

  datatype Geometry =
    | BoxGeometry | ConeGeometry | CylinderGeometry | PlaneGeometry | SphereGeometry
    | MeshGeometry(descriptor: MeshDescriptor)

  datatype Material = Material(
    ambient: Option<Color>,
    diffuse: Option<Color>,
    specular: Option<Color>,
    emissive: Option<Color>,
    lightingEnabled: Option<bool>,
    normalMap: Option<string>,
    shaderType: Option<ShaderType>)

  datatype LightSettings = LightSettings(
    diffuse: Option<Color>,
    specular: Option<Color>,
    attenuationConstant: Option<real>,
    attenuationLinear: Option<real>,
    attenuationQuadratic: Option<real>,
    attenuationRange: Option<real>,
    castShadows: Option<bool>,
    direction: Option<Vector3>,
    innerAngle: Option<real>,
    outerAngle: Option<real>,
    falloff: Option<real>)

  const DefaultLightSettings := LightSettings(None, None, None, None, None, None, None, None, None, None, None)

  datatype Node = Node(
    kind: NodeKind,
    id: Option<nat>,
    parent: ParentRef,
    pose: Option<Pose>,
    scale: Option<Vector3>,
    geometries: seq<Geometry>,
    material: Option<Material>,
    light: LightSettings)

  type NodeMap = map<string, Node>

  /** gazebo::common::Time, kept as the (sec, nsec) pair it is built from. */
  datatype Time = Time(sec: int, nsec: int)

  datatype Graph = Graph(nodes: NodeMap, ambient: Option<Color>, background: Option<Color>, simTime: Time)

  const EmptyGraph := Graph(map[], None, None, Time(0, 0))

  /** A freshly created node, already attached to `parent`, with engine defaults. */
  function NewNode(kind: NodeKind, id: Option<nat>, parent: ParentRef): Node {
    Node(kind, id, parent, None, None, [], None, DefaultLightSettings)
  }

  /** Scene::GetVisualByName finds a node of that name only if it is a visual. */
  predicate HasVisual(nodes: NodeMap, name: string) {
    name in nodes && nodes[name].kind == VisualNode
  }

  /** A parent handle the core can hold: the root, or an existing visual. */
  predicate ValidParent(nodes: NodeMap, parent: ParentRef) {
    parent.Root? || HasVisual(nodes, parent.name)
  }

  /** Every node hangs under the root or under an existing visual. */
  predicate WellParented(nodes: NodeMap) {
    forall n :: n in nodes ==> ValidParent(nodes, nodes[n].parent)
  }

  /** `b` keeps every node of `a`, with the same kind (nodes are never retyped or dropped). */
  predicate Extends(a: NodeMap, b: NodeMap) {
    a.Keys <= b.Keys && forall n :: n in a ==> b[n].kind == a[n].kind
  }

  /** Create a node of the given kind and attach it; refused when the name is taken. */
  function CreateNode(nodes: NodeMap, kind: NodeKind, id: Option<nat>, name: string, parent: ParentRef): Option<NodeMap> {
    if name in nodes then None else Some(nodes[name := NewNode(kind, id, parent)])
  }

  /** Scene::DestroyNodeByName: removing a name that is absent changes nothing. */
  function DestroyNodeByName(nodes: NodeMap, name: string): (r: NodeMap)
    ensures name !in r && r.Keys == nodes.Keys - {name}
    ensures forall n :: n in r ==> r[n] == nodes[n]
    ensures name !in nodes ==> r == nodes
  {
    nodes - {name}
  }

  /** A scene instance; its identity (object, id and name) never changes. */
  class Scene {
    const id: nat
    const name: string
    var graph: Graph

    constructor (id: nat, name: string)
      ensures this.id == id && this.name == name && graph == EmptyGraph
    {
      this.id := id;
      this.name := name;
      graph := EmptyGraph;
    }

    /** Destroys every node below the root; scene-wide settings stay. */
    method Clear()
      modifies this
      ensures graph == old(graph).(nodes := map[])
    {
      graph := graph.(nodes := map[]);
    }

    method SetSimTime(t: Time)
      modifies this
      ensures graph == old(graph).(simTime := t)
    {
      graph := graph.(simTime := t);
    }

    method SetAmbientLight(c: Color)
      modifies this
      ensures graph == old(graph).(ambient := Some(c))
    {
      graph := graph.(ambient := Some(c));
    }

    method SetBackgroundColor(c: Color)
      modifies this
      ensures graph == old(graph).(background := Some(c))
    {
      graph := graph.(background := Some(c));
    }
  }
}
