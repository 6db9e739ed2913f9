/**
 * The engine-side value types and the `SubSceneManager::Convert` overloads
 * that map wire values onto them.  The numeric conversions copy each field;
 * the shader-type conversion falls back to `StUnknown`.
 */
module Convert {
  import opened Msgs

  datatype Color = Color(r: real, g: real, b: real, a: real)
  datatype Vector3 = Vector3(x: real, y: real, z: real)
  datatype Quaternion = Quaternion(w: real, x: real, y: real, z: real)
  datatype Pose = Pose(pos: Vector3, rot: Quaternion)

  /** The engine's shader types (ST_VERTEX, ST_PIXEL, ST_NORM_OBJ, ST_NORM_TAN, ST_UNKNOWN). */
  datatype ShaderType = StVertex | StPixel | StNormObj | StNormTan | StUnknown

  function ConvertColor(c: ColorMsg): Color {
    Color(c.r, c.g, c.b, c.a)
  }

  function ConvertVector(v: Vector3dMsg): Vector3 {
    Vector3(v.x, v.y, v.z)
  }

  function ConvertQuaternion(q: QuaternionMsg): Quaternion {
    Quaternion(q.w, q.x, q.y, q.z)
  }

  function ConvertPose(p: PoseMsg): Pose {
    Pose(ConvertVector(p.position), ConvertQuaternion(p.orientation))
  }

  /** Every recognised shader type has its own engine value; anything else is `StUnknown`. */
  function ConvertShaderType(t: MaterialShaderType): (r: ShaderType)
    ensures r == StUnknown <==> t.OtherShaderType?
  {
    match t
    case Vertex => StVertex
    case Pixel => StPixel
    case NormalMapObjectSpace => StNormObj
    case NormalMapTangentSpace => StNormTan
    case OtherShaderType(_) => StUnknown
  }

  /** Distinct recognised shader types map to distinct engine shader types. */
  lemma ShaderTypeMappingIsInjective(t1: MaterialShaderType, t2: MaterialShaderType)
    requires !t1.OtherShaderType? && !t2.OtherShaderType?
    ensures ConvertShaderType(t1) == ConvertShaderType(t2) ==> t1 == t2
  {
  }

  /**
   * The numeric conversions lose nothing: two wire values convert to the
   * same engine value only if they are equal.  (A pose's name is not part
   * of the engine pose.)
   */
  lemma ConversionsAreLossless(c1: ColorMsg, c2: ColorMsg, v1: Vector3dMsg, v2: Vector3dMsg,
                               q1: QuaternionMsg, q2: QuaternionMsg, p1: PoseMsg, p2: PoseMsg)
    ensures ConvertColor(c1) == ConvertColor(c2) ==> c1 == c2
    ensures ConvertVector(v1) == ConvertVector(v2) ==> v1 == v2
    ensures ConvertQuaternion(q1) == ConvertQuaternion(q2) ==> q1 == q2
    ensures ConvertPose(p1) == ConvertPose(p2) <==>
              p1.position == p2.position && p1.orientation == p2.orientation
  {
  }
}
