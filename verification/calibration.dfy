/**
  The camera calibration the node captures from the first `CameraInfo` message:
  the message itself (its header supplies the default output frame), the 3x3
  intrinsic matrix reshaped from the message's nine values, and the distortion
  coefficients.
 */
module Calibration {
  import opened Messages

  predicate IsMat3(m: seq<seq<real>>) {
    |m| == 3 && forall r :: 0 <= r < 3 ==> |m[r]| == 3
  }

  /** A 3x3 real matrix, as a sequence of rows. */
  type Mat3 = m: seq<seq<real>> | IsMat3(m)
    witness [[0.0, 0.0, 0.0], [0.0, 0.0, 0.0], [0.0, 0.0, 0.0]]

  /** `np.reshape(k, (3, 3))`: the nine values laid out row by row. */
  function Reshape(k: Nine): (m: Mat3)
    ensures forall r, c :: 0 <= r < 3 && 0 <= c < 3 ==> m[r][c] == k[3 * r + c]
  {
    [k[0..3], k[3..6], k[6..9]]
  }

  /** The row-major reading of a 3x3 matrix, the inverse of `Reshape`. */
  function Flatten(m: Mat3): (k: Nine) {
    m[0] + m[1] + m[2]
  }

  /** Reshaping then flattening gives back the message's nine values. */
  lemma FlattenReshape(k: Nine)
    ensures Flatten(Reshape(k)) == k
  {
    assert k == k[0..3] + k[3..6] + k[6..9];
  }

  /** Flattening then reshaping gives back the matrix. */
  lemma ReshapeFlatten(m: Mat3)
    ensures Reshape(Flatten(m)) == m
  {
    var k := Flatten(m);
    assert k[0..3] == m[0] && k[3..6] == m[1] && k[6..9] == m[2];
  }

  /** What `info_callback` stores: the message, its intrinsics and its distortion. */
  datatype Calibration = Calibration(info: CameraInfo, intrinsic: Mat3, distortion: seq<real>)

  /** The three assignments of `info_callback`. */
  function Capture(info: CameraInfo): (c: Calibration)
    ensures c.info == info
    ensures forall r, col :: 0 <= r < 3 && 0 <= col < 3 ==> c.intrinsic[r][col] == info.k[3 * r + col]
    ensures Flatten(c.intrinsic) == info.k
    ensures c.distortion == info.d
  {
    FlattenReshape(info.k);
    Calibration(info, Reshape(info.k), info.d)
  }
}
