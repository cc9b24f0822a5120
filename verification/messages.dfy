/**
  The ROS message shapes the node consumes and produces: `std_msgs/Header`,
  `sensor_msgs/CameraInfo`, `sensor_msgs/Image`, `geometry_msgs/Pose` and
  `PoseArray`, and `ros2_aruco_interfaces/ArucoMarkers`. Only the fields the
  node reads or writes are kept. Floating-point fields are `real`; the node
  never computes with them, it only copies them.
 */
module Messages {

  /** `builtin_interfaces/Time`. */
  datatype Time = Time(sec: int, nanosec: nat)

  /** `std_msgs/Header`. */
  datatype Header = Header(stamp: Time, frameId: string)

  /** The header of a freshly constructed message: zero stamp, empty frame id. */
  const EmptyHeader := Header(Time(0, 0), "")

  /** `geometry_msgs/Point`; also the translation vector a pose solver returns. */
  datatype Vec3 = Vec3(x: real, y: real, z: real)

  /** `geometry_msgs/Quaternion`, in (x, y, z, w) order. */
  datatype Quaternion = Quaternion(x: real, y: real, z: real, w: real)

  /** `geometry_msgs/Pose`. */
  datatype Pose = Pose(position: Vec3, orientation: Quaternion)

  /** `geometry_msgs/PoseArray`. */
  datatype PoseArray = PoseArray(header: Header, poses: seq<Pose>)

  /** `ros2_aruco_interfaces/ArucoMarkers`: poses with the parallel id list. */
  datatype ArucoMarkers = ArucoMarkers(header: Header, markerIds: seq<int>, poses: seq<Pose>)

  /** The fixed-size `float64[9]` field `k` of `CameraInfo`. */
  type Nine = s: seq<real> | |s| == 9 witness [0.0, 0.0, 0.0, 0.0, 0.0, 0.0, 0.0, 0.0, 0.0]

  /** `sensor_msgs/CameraInfo`: `k` is the row-major 3x3 intrinsic matrix, `d` the distortion. */
  datatype CameraInfo = CameraInfo(header: Header, k: Nine, d: seq<real>)

  /** `sensor_msgs/Image`. */
  datatype Image = Image(header: Header, height: nat, width: nat, encoding: string, data: seq<bv8>)
}
