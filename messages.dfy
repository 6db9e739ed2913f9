/**
 * The wire messages the scene manager receives from the transport layer
 * (gazebo::msgs), as already-parsed values.  An optional protobuf field
 * (one with a `has_*` accessor) is an `Option`; a sub-message read through
 * its getter without a `has_*` check is a plain field, because protobuf
 * returns the default instance when it is unset.  Floating-point fields are
 * `real`: the core only copies them.
 */
module Msgs {
  import opened Wrappers

  datatype ColorMsg = ColorMsg(r: real, g: real, b: real, a: real)
  datatype Vector3dMsg = Vector3dMsg(x: real, y: real, z: real)
  datatype Vector2dMsg = Vector2dMsg(x: real, y: real)
  datatype QuaternionMsg = QuaternionMsg(w: real, x: real, y: real, z: real)

  /** gazebo::msgs::Pose; `name` names the node the pose is for. */
  datatype PoseMsg = PoseMsg(name: string, position: Vector3dMsg, orientation: QuaternionMsg)

  datatype TimeMsg = TimeMsg(sec: int, nsec: int)

  /** gazebo::msgs::PosesStamped: one timestamped batch of poses. */
  datatype PosesStampedMsg = PosesStampedMsg(time: TimeMsg, poses: seq<PoseMsg>)

  /** gazebo::msgs::Light::LightType; `OtherLightType` is any other enum code. */
  datatype LightType = Point | Spot | Directional | OtherLightType(code: int)

  datatype LightMsg = LightMsg(
    name: string,
    lightType: Option<LightType>,
    pose: Option<PoseMsg>,
    diffuse: Option<ColorMsg>,
    specular: Option<ColorMsg>,
    attenuationConstant: Option<real>,
    attenuationLinear: Option<real>,
    attenuationQuadratic: Option<real>,
    range: Option<real>,
    castShadows: Option<bool>,
    direction: Option<Vector3dMsg>,
    spotInnerAngle: Option<real>,
    spotOuterAngle: Option<real>,
    spotFalloff: Option<real>)

  /** gazebo::msgs::Geometry::Type; `OtherGeomType` is any other enum code. */
  datatype GeomType = Box | Cone | Cylinder | Empty | Mesh | Plane | Sphere | OtherGeomType(code: int)

  datatype BoxGeomMsg = BoxGeomMsg(size: Vector3dMsg)
  datatype CylinderGeomMsg = CylinderGeomMsg(radius: real, length: real)
  datatype PlaneGeomMsg = PlaneGeomMsg(size: Vector2dMsg)
  datatype SphereGeomMsg = SphereGeomMsg(radius: real)
  datatype MeshGeomMsg = MeshGeomMsg(
    filename: string,
    submesh: Option<string>,
    centerSubmesh: Option<bool>,
    scale: Option<Vector3dMsg>)

  datatype GeometryMsg = GeometryMsg(
    geomType: GeomType,
    box: BoxGeomMsg,
    cylinder: CylinderGeomMsg,
    plane: PlaneGeomMsg,
    sphere: SphereGeomMsg,
    mesh: MeshGeomMsg)

  /** gazebo::msgs::Material::ShaderType; `OtherShaderType` is any other enum code. */
  datatype MaterialShaderType =
    | Vertex | Pixel | NormalMapObjectSpace | NormalMapTangentSpace | OtherShaderType(code: int)

  datatype MaterialMsg = MaterialMsg(
    ambient: Option<ColorMsg>,
    diffuse: Option<ColorMsg>,
    specular: Option<ColorMsg>,
    emissive: Option<ColorMsg>,
    lighting: Option<bool>,
    normalMap: Option<string>,
    shaderType: Option<MaterialShaderType>)

  /** `id` is `Some` exactly when the message has an id (`has_id()`). */
  datatype VisualMsg = VisualMsg(
    name: string,
    id: Option<nat>,
    parentName: string,
    pose: Option<PoseMsg>,
    scale: Option<Vector3dMsg>,
    geometry: Option<GeometryMsg>,
    material: Option<MaterialMsg>)

  /** Only whether a camera sub-message is present matters to the core. */
  datatype SensorMsg = SensorMsg(name: string, id: Option<nat>, parent: string, hasCamera: bool)

  datatype JointMsg = JointMsg(
    name: string,
    id: Option<nat>,
    parent: string,
    pose: Option<PoseMsg>,
    sensors: seq<SensorMsg>)

  datatype LinkMsg = LinkMsg(
    name: string,
    id: Option<nat>,
    pose: Option<PoseMsg>,
    visuals: seq<VisualMsg>,
    sensors: seq<SensorMsg>)

  datatype ModelMsg = ModelMsg(
    name: string,
    id: Option<nat>,
    pose: Option<PoseMsg>,
    scale: Option<Vector3dMsg>,
    joints: seq<JointMsg>,
    links: seq<LinkMsg>,
    visuals: seq<VisualMsg>)

  /** gazebo::msgs::Scene: the snapshot a `scene_info` request is answered with. */
  datatype SceneMsg = SceneMsg(
    ambient: Option<ColorMsg>,
    background: Option<ColorMsg>,
    lights: seq<LightMsg>,
    models: seq<ModelMsg>)

  /** gazebo::msgs::Request, as seen on the `~/request` topic. */
  datatype RequestMsg = RequestMsg(id: int, request: string, data: string)

  /**
   * gazebo::msgs::Response.  `serializedData` stands for the serialized
   * scene the response carries, already parsed.
   */
  datatype ResponseMsg = ResponseMsg(id: int, request: string, response: string, serializedData: SceneMsg)

  const EmptyScene := SceneMsg(None, None, [], [])
}
