/**
 * The ROS messages the node reads and writes, reduced to the fields its logic
 * touches.
 */
module RosMessages {
  import opened Geometry

  /** ros::Time. */
  datatype Time = Time(sec: nat, nsec: nat)

  /** ros::Duration, as a signed count of nanoseconds. */
  datatype Duration = Duration(nanoseconds: int)

  /** std_msgs::Header. */
  datatype Header = Header(frameId: string, stamp: Time)

  /**
   * sensor_msgs::PointCloud2 with its x, y, z fields already decoded: the
   * binary layout of the message is not modelled.
   */
  datatype PointCloud2 = PointCloud2(header: Header, points: seq<Vec3>)

  /** A default-constructed sensor_msgs::PointCloud2: no fields and no points. */
  const EmptyCloud := PointCloud2(Header("", Time(0, 0)), [])

  /** geometry_msgs::Quaternion. */
  datatype Quaternion = Quaternion(x: real, y: real, z: real, w: real)

  /** geometry_msgs::Transform: a translation and a rotation. */
  datatype Transform = Transform(translation: Vec3, rotation: Quaternion)

  /** geometry_msgs::TransformStamped. */
  datatype TransformStamped = TransformStamped(header: Header, childFrameId: string, transform: Transform)

  /** geometry_msgs::Point. */
  datatype GeoPoint = GeoPoint(x: real, y: real, z: real)

  /** A 32-bit unsigned integer. */
  newtype uint32 = i: int | 0 <= i < 0x1_0000_0000

  /** mesh_msgs::MeshTriangleIndices: the three vertex_indices of one face. */
  datatype TriangleIndices = TriangleIndices(v0: uint32, v1: uint32, v2: uint32)

  /** mesh_msgs::MeshGeometry. */
  datatype MeshGeometry = MeshGeometry(vertices: seq<GeoPoint>, faces: seq<TriangleIndices>)

  /** mesh_msgs::MeshGeometryStamped. */
  datatype MeshGeometryStamped = MeshGeometryStamped(header: Header, uuid: string, meshGeometry: MeshGeometry)

  /**
   * pcl2SensorMsgToEigen: the points of a cloud as vectors, in message order.
   * A cloud without points (such as EmptyCloud) gives no vectors.
   */
  function PointsOf(cloud: PointCloud2): seq<Vec3>
  {
    cloud.points
  }

  /** C++ conversion of a signed 32-bit value to uint32: reduction modulo 2^32. */
  function ToUint32(i: int32): (u: uint32)
    ensures i >= 0 ==> u as int == i as int
    ensures i < 0 ==> u as int == i as int + 0x1_0000_0000
  {
    (i as int % 0x1_0000_0000) as uint32
  }

  /** One row of the vertex list of the mesh message. */
  function ToGeoPoint(v: Vec3): (p: GeoPoint)
  {
    GeoPoint(v.x, v.y, v.z)
  }

  /** One entry of the face list of the mesh message. */
  function ToTriangleIndices(t: Vec3i): (f: TriangleIndices)
  {
    TriangleIndices(ToUint32(t.i0), ToUint32(t.i1), ToUint32(t.i2))
  }
}
