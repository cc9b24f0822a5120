/**
  `image_callback`: the per-frame work of the node once calibration is present.
  Marker detection, single-marker pose solving, the Rodrigues conversion and the
  matrix-to-quaternion conversion are foreign floating-point routines; they are
  the fields of a `Vision` value and the model states nothing about their results.
 */
module FrameProcessor {
  import opened Wrappers
  import opened Messages
  import opened MarkerSizes
  import opened Calibration

  /** The four image-plane corners of one detected marker. */
  datatype Point2 = Point2(x: real, y: real)
  type CornerSet = seq<Point2>

  /**
    What `cv2.aruco.detectMarkers` returns: one corner set per detection, the
    detected IDs (`None` when nothing was found) and the rejected candidates.
   */
  datatype Detection = Detection(corners: seq<CornerSet>, ids: Option<seq<int>>, rejected: seq<CornerSet>)

  /** The detector reports one corner set per returned ID. */
  predicate Aligned(d: Detection) {
    d.ids.None? || |d.ids.value| == |d.corners|
  }

  type AlignedDetection = d: Detection | Aligned(d) witness Detection([], None, [])

  /**
    The foreign routines the callback calls, in order:
    `detect` converts the image to `mono8` and runs the marker detector with the
    node's dictionary; `solve` is `estimatePoseSingleMarkers` for one marker,
    returning its rotation vector and translation vector; `rodrigues` turns a
    rotation vector into a rotation matrix; `toQuaternion` is
    `quaternion_from_matrix` on a 4x4 homogeneous transform.
   */
  datatype Vision = Vision(
    detect: Image -> AlignedDetection,
    solve: (CornerSet, real, Mat3, seq<real>) -> (Vec3, Vec3),
    rodrigues: Vec3 -> Mat3,
    toQuaternion: seq<seq<real>> -> Quaternion)

  /** The node's settings that the callback reads. */
  datatype Config = Config(sizes: SizeTable, cameraFrame: string)

  /**
    `np.eye(4)` with its upper-left 3x3 block replaced by `rot`: the homogeneous
    transform handed to the quaternion conversion.
   */
  function Homogeneous(rot: Mat3): (h: seq<seq<real>>)
    ensures |h| == 4 && forall i :: 0 <= i < 4 ==> |h[i]| == 4
    ensures forall i, j :: 0 <= i < 3 && 0 <= j < 3 ==> h[i][j] == rot[i][j]
    ensures forall i :: 0 <= i < 3 ==> h[i][3] == 0.0 && h[3][i] == 0.0
    ensures h[3][3] == 1.0
  {
    [rot[0] + [0.0], rot[1] + [0.0], rot[2] + [0.0], [0.0, 0.0, 0.0, 1.0]]
  }

  /** The pose of one marker: translation as position, rotation as quaternion. */
  function EstimatePose(v: Vision, cal: Calibration, corners: CornerSet, size: real): (pose: Pose)
    ensures pose.position == v.solve(corners, size, cal.intrinsic, cal.distortion).1
    ensures pose.orientation ==
              v.toQuaternion(Homogeneous(v.rodrigues(v.solve(corners, size, cal.intrinsic, cal.distortion).0)))
  {
    var (rvec, tvec) := v.solve(corners, size, cal.intrinsic, cal.distortion);
    Pose(tvec, v.toQuaternion(Homogeneous(v.rodrigues(rvec))))
  }

  /** The pose of one marker, solved with the size `get_marker_size` gives its ID. */
  function MarkerPose(v: Vision, cal: Calibration, cfg: Config, corners: CornerSet, id: int): Pose {
    EstimatePose(v, cal, corners, GetMarkerSize(cfg.sizes, id))
  }

  /** The frame label of both outputs: `camera_frame` unless it is empty. */
  function FrameLabel(cameraFrame: string, cal: Calibration): (frame: string)
    ensures cameraFrame != "" ==> frame == cameraFrame
    ensures cameraFrame == "" ==> frame == cal.info.header.frameId
  {
    if cameraFrame == "" then cal.info.header.frameId else cameraFrame
  }

  /** The two messages under construction. */
  datatype Batch = Batch(poseArray: PoseArray, markers: ArucoMarkers)

  /** The two outputs list the same poses, and one ID per pose. */
  predicate Parallel(b: Batch) {
    && b.poseArray.poses == b.markers.poses
    && |b.markers.markerIds| == |b.markers.poses|
  }

  /**
    The loop body for detections `i..`: each appends the marker's pose to both
    outputs and its ID to the marker list, in detection order.
   */
  function AppendMarkers(v: Vision, cal: Calibration, cfg: Config,
                         corners: seq<CornerSet>, ids: seq<int>, i: nat, b: Batch): (r: Batch)
    requires |corners| == |ids| && i <= |ids|
    requires Parallel(b)
    ensures Parallel(r)
    ensures r.poseArray.header == b.poseArray.header && r.markers.header == b.markers.header
    ensures r.markers.markerIds == b.markers.markerIds + ids[i..]
    ensures |r.poseArray.poses| == |b.poseArray.poses| + |ids| - i
    ensures forall j :: 0 <= j < |b.poseArray.poses| ==> r.poseArray.poses[j] == b.poseArray.poses[j]
    ensures forall j :: i <= j < |ids| ==>
              r.poseArray.poses[|b.poseArray.poses| + j - i] == MarkerPose(v, cal, cfg, corners[j], ids[j])
    decreases |ids| - i
  {
    if i == |ids| then b
    else
      var pose := MarkerPose(v, cal, cfg, corners[i], ids[i]);
      var b' := Batch(
        b.poseArray.(poses := b.poseArray.poses + [pose]),
        b.markers.(poses := b.markers.poses + [pose], markerIds := b.markers.markerIds + [ids[i]]));
      AppendMarkers(v, cal, cfg, corners, ids, i + 1, b')
  }

  /** What one image leads to. */
  datatype ImageOutcome =
    | NoCameraInfo                                   // warned and returned early
    | NothingDetected                                // detector returned no IDs
    | Published(poseArray: PoseArray, markers: ArucoMarkers)

  /**
    `image_callback` given the calibration captured so far: nothing without
    calibration; otherwise detect, and publish both messages when the detector
    returned IDs.
   */
  function ImageCallback(v: Vision, cfg: Config, calibration: Option<Calibration>, img: Image): (r: ImageOutcome)
    ensures calibration.None? ==> r == NoCameraInfo
    ensures r.Published? <==> calibration.Some? && v.detect(img).ids.Some?
    ensures r.Published? ==>
      var ids := v.detect(img).ids.value;
      var corners := v.detect(img).corners;
      var frame := if cfg.cameraFrame != "" then cfg.cameraFrame else calibration.value.info.header.frameId;
      && r.poseArray.header == Header(img.header.stamp, frame)
      && r.markers.header == Header(img.header.stamp, frame)
      && r.markers.markerIds == ids
      && r.markers.poses == r.poseArray.poses
      && |r.poseArray.poses| == |ids|
      && forall j :: 0 <= j < |ids| ==>
           r.poseArray.poses[j] == EstimatePose(v, calibration.value, corners[j], GetMarkerSize(cfg.sizes, ids[j]))
  {
    match calibration
    case None => NoCameraInfo
    case Some(cal) =>
      var header := Header(img.header.stamp, FrameLabel(cfg.cameraFrame, cal));
      var detection := v.detect(img);
      match detection.ids
      case None => NothingDetected
      case Some(ids) =>
        var b := AppendMarkers(v, cal, cfg, detection.corners, ids, 0,
                               Batch(PoseArray(header, []), ArucoMarkers(header, [], [])));
        Published(b.poseArray, b.markers)
  }
}
