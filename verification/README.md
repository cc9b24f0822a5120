# ArucoNode bookkeeping model

A Dafny model of the control logic of `ArucoNode`, the ROS 2 node of `ros2_aruco`
that detects ArUco fiducial markers in camera images and publishes their poses.
The model covers the logic around the OpenCV calls:

- the activation state machine (`start` / `stop` and the image subscription they
  create and destroy);
- the one-shot capture of the camera calibration in `info_callback`, after which the
  camera-info subscription is destroyed;
- marker-size resolution (`get_marker_size`) and the construction of the per-ID
  override map from the `marker_map` JSON text, including Python's `int()` on its keys;
- the per-frame batch assembly of `image_callback`: the output frame label, the copied
  stamp, one pose per detection in detection order, and the two parallel outputs
  (`PoseArray` and `ArucoMarkers`).

Marker detection, the single-marker pose solver, `cv2.Rodrigues` and
`quaternion_from_matrix` are fields of a `Vision` value of function type that every
frame-level member takes as a parameter; nothing is claimed about what they compute.

Files (one module each): `wrappers.dfy` (Option, Result), `pyint.dfy` (`int()` on
decimal text), `messages.dfy` (ROS message shapes), `marker_sizes.dfy`,
`calibration.dfy`, `frame_processor.dfy` (`image_callback`), `aruco_node.dfy` (node
state, event handlers, runs over event sequences).

The node is an immutable `Node` record. Events (`StartRequest`, `StopRequest`,
`CameraInfoArrives`, `ImageArrives`) go through `ArucoNode.Step`. A message reaches
its callback only while a subscription for it is live, as the middleware delivers
it. `ArucoNode.Run` folds a sequence of events and gives one output per event.

Behaviour of the code that the model keeps:

- Output is published whenever the detector's ID array is not `None`
  (`aruco_node.py:232`). OpenCV returns `None` when it finds nothing, so nothing is
  published then. An empty but present ID array would publish two empty messages
  (`ImageCallback`).
- Only `json.JSONDecodeError` falls back to the empty map (`aruco_node.py:124-126`).
  JSON that is not an object, or a key `int()` rejects, raises an uncaught exception
  that aborts start-up (`StartupError`).
- A later override entry whose key reads as the same integer (`"7"` and `"07"`)
  overwrites an earlier one, as the dictionary comprehension does.
- `stop` destroys the subscription `img_sub` refers to but never resets `img_sub`.
  A second `stop` destroys an already destroyed subscription, which has no effect.

## Model

| member | source | states |
|---|---|---|
| `PyInt.ParseInt` | ros2_aruco/ros2_aruco/aruco_node.py:121 | `int(k)`: blank text is refused, an accepted key has at most 4300 digits, a negative result comes from a leading `-`; partners `ParseShowRoundTrip`, `TooManyDigitsRejected`, `LeadingSpaceIgnored`, `FileSeparatorRejected` |
| `PyInt.ParseShowRoundTrip` | ros2_aruco/ros2_aruco/aruco_node.py:121 | `int()` reads the decimal text `str()` writes back to the same integer, sign included, whenever that text is within the 4300-digit limit |
| `PyInt.TooManyDigitsRejected` | ros2_aruco/ros2_aruco/aruco_node.py:121 | a key with more than 4300 digits, underscores not counted and leading zeros counted, makes `int(k)` raise |
| `PyInt.LeadingSpaceIgnored` | ros2_aruco/ros2_aruco/aruco_node.py:121 | a leading space, tab, LF, VT, FF or CR does not change what `int(k)` reads |
| `PyInt.FileSeparatorRejected` | ros2_aruco/ros2_aruco/aruco_node.py:121 | a control character outside that whitespace set is not stripped: `int("\x1c7")` raises |
| `MarkerSizes.ConvertKeys` | ros2_aruco/ros2_aruco/aruco_node.py:121 | the comprehension gives at most one map entry per item and fails only on a key; its partners are the four `ConvertKeys…` lemmas |
| `MarkerSizes.ConvertKeysOk` | ros2_aruco/ros2_aruco/aruco_node.py:121 | the key conversion succeeds exactly when every key converts |
| `MarkerSizes.ConvertKeysError` | ros2_aruco/ros2_aruco/aruco_node.py:121 | a failed conversion reports the first key, in item order, that does not convert |
| `MarkerSizes.ConvertKeysDomain` | ros2_aruco/ros2_aruco/aruco_node.py:121 | the map has an entry for an ID exactly when some key converts to that ID |
| `MarkerSizes.ConvertKeysLastWins` | ros2_aruco/ros2_aruco/aruco_node.py:121 | an ID's size is the value of the last entry whose key converts to it; values are unchanged |
| `MarkerSizes.BuildMarkerMap` | ros2_aruco/ros2_aruco/aruco_node.py:117-126 | the map builds exactly when the text fails to decode (empty map) or decodes to an object whose every key `int()` accepts; on an object it can fail only on a key |
| `MarkerSizes.BuildSucceedsIffKeysParse` | ros2_aruco/ros2_aruco/aruco_node.py:117-123 | a decoded JSON object yields a size table exactly when `int()` accepts every key |
| `MarkerSizes.BadKeyAborts` | ros2_aruco/ros2_aruco/aruco_node.py:118-124 | a key `int()` rejects is not caught: start-up aborts, naming the first bad key |
| `MarkerSizes.NonObjectAborts` | ros2_aruco/ros2_aruco/aruco_node.py:119-124 | valid JSON that is not an object aborts start-up instead of falling back |
| `MarkerSizes.DecodeFailureUsesDefault` | ros2_aruco/ros2_aruco/aruco_node.py:124-126 | undecodable text gives the empty map, so every ID resolves to the default size |
| `MarkerSizes.GetMarkerSize` | ros2_aruco/ros2_aruco/aruco_node.py:295-298 | the lookup is total: the override when the ID has one, the default otherwise; `OverrideWins` and `UnlistedUsesDefault` tie it to the JSON entries |
| `MarkerSizes.OverrideWins` | ros2_aruco/ros2_aruco/aruco_node.py:295-298 | an ID named in the overrides resolves to its override size, whatever the default |
| `MarkerSizes.UnlistedUsesDefault` | ros2_aruco/ros2_aruco/aruco_node.py:295-298 | an ID no override names resolves to the default size; lookup never fails |
| `Calibration.Reshape` | ros2_aruco/ros2_aruco/aruco_node.py:200 | entry (r, c) of the intrinsic matrix is value `3*r + c` of the message's `k` |
| `Calibration.FlattenReshape` | ros2_aruco/ros2_aruco/aruco_node.py:200 | reading the reshaped matrix row by row gives back the nine values |
| `Calibration.ReshapeFlatten` | ros2_aruco/ros2_aruco/aruco_node.py:200 | reshaping is onto: every 3x3 matrix is the reshape of its row-major values |
| `Calibration.Capture` | ros2_aruco/ros2_aruco/aruco_node.py:199-201 | the stored calibration keeps the message, its row-major intrinsics and its distortion unchanged |
| `FrameProcessor.Homogeneous` | ros2_aruco/ros2_aruco/aruco_node.py:250-251 | the transform given to the quaternion conversion is the identity with the rotation in its upper-left block |
| `FrameProcessor.EstimatePose` | ros2_aruco/ros2_aruco/aruco_node.py:237-257 | the pose's position is the solver's translation vector unchanged, and its orientation is the quaternion of the homogeneous transform of the same call's rotation vector |
| `FrameProcessor.FrameLabel` | ros2_aruco/ros2_aruco/aruco_node.py:216-221 | the output frame is `camera_frame` when it is non-empty, otherwise the calibration message's frame; the image's own frame is never used |
| `FrameProcessor.AppendMarkers` | ros2_aruco/ros2_aruco/aruco_node.py:233-261 | the loop keeps both outputs parallel and appends, in detection order, each ID and the pose solved with that ID's size |
| `FrameProcessor.ImageCallback` | ros2_aruco/ros2_aruco/aruco_node.py:209-264 | no calibration gives no output; outputs appear exactly when the detector returned IDs; both carry the override frame (else the calibration's) and the image stamp; one pose per ID, in order, solved with that ID's size |
| `ArucoNode.Init` | ros2_aruco/ros2_aruco/aruco_node.py:164-191 | the node starts inactive, with no image subscription, the camera-info subscription open and no calibration |
| `ArucoNode.Create` | ros2_aruco/ros2_aruco/aruco_node.py:114-126 | construction succeeds exactly when the override map builds, and then starts from the initial state with that table |
| `ArucoNode.Start` | ros2_aruco/ros2_aruco/aruco_node.py:274-285 | `start` always returns true and leaves the node active; when already active it changes nothing |
| `ArucoNode.Stop` | ros2_aruco/ros2_aruco/aruco_node.py:287-293 | `stop` always returns true and leaves the node inactive; it destroys the held subscription if one was ever created and creates none |
| `ArucoNode.InfoCallback` | ros2_aruco/ros2_aruco/aruco_node.py:197-203 | the calibration is stored from the message and the camera-info subscription is closed; activation is untouched |
| `ArucoNode.Step` | ros2_aruco/ros2_aruco/aruco_node.py:266-272 | service calls always reply true; a camera-info message is stored exactly while its subscription is open; an image never changes the node and reaches `image_callback` exactly while an image subscription is live; only camera-info changes the calibration |
| `ArucoNode.StepPreservesInv` | ros2_aruco/ros2_aruco/aruco_node.py:274-293 | every event keeps "image subscription live iff active, camera-info subscription live iff no calibration" |
| `ArucoNode.RunPreservesInv` | ros2_aruco/ros2_aruco/aruco_node.py:274-293 | the invariant holds after any sequence of events |
| `ArucoNode.AtMostOneImageSubscription` | ros2_aruco/ros2_aruco/aruco_node.py:278-291 | from start-up, at most one image subscription is ever live, and one is live exactly while active |
| `ArucoNode.StartFromIdle` | ros2_aruco/ros2_aruco/aruco_node.py:278-285 | `start` from idle creates exactly one new subscription and leaves exactly one live |
| `ArucoNode.StartIdempotent` | ros2_aruco/ros2_aruco/aruco_node.py:274-277 | two `start` calls leave the same state and reply as one |
| `ArucoNode.StopIdempotent` | ros2_aruco/ros2_aruco/aruco_node.py:287-293 | two `stop` calls leave the same state and reply as one |
| `ArucoNode.StopClosesImages` | ros2_aruco/ros2_aruco/aruco_node.py:289-291 | after `stop` no image subscription is live, whatever the prior state |
| `ArucoNode.IdleDropsImage` | ros2_aruco/ros2_aruco/aruco_node.py:287-293 | an image arriving while idle is not delivered and leaves no trace in the state, so nothing is queued |
| `ArucoNode.ActiveHandlesImage` | ros2_aruco/ros2_aruco/aruco_node.py:281-283 | an image arriving while active goes to `image_callback` with the current calibration and changes no state |
| `ArucoNode.CalibrationIsOneShot` | ros2_aruco/ros2_aruco/aruco_node.py:202-203 | once captured, calibration never changes; before that, the first camera-info message is the one kept |
| `ArucoNode.FirstCalibrationKept` | ros2_aruco/ros2_aruco/aruco_node.py:197-203 | from start-up, the calibration after any events is the first one that arrived |
| `ArucoNode.IdleUntilStart` | ros2_aruco/ros2_aruco/aruco_node.py:287-293 | once idle, every image before the next `start` is undelivered and the node stays idle |
| `ArucoNode.NoOutputBeforeCalibration` | ros2_aruco/ros2_aruco/aruco_node.py:209-211 | before any calibration an image produces no published output |

## Left out

- Marker detection, pose solving, `cv2.Rodrigues` and `quaternion_from_matrix` are foreign floating-point routines. They are parameters (`Vision`), and nothing is claimed about quaternion norm or numeric accuracy.
- The `cv_bridge` conversion to `mono8` is folded into `Vision.detect`. A conversion failure is not modelled.
- The detector is assumed to return one corner set per ID (`AlignedDetection`), as OpenCV does. A shorter corner list would raise `IndexError` in the code.
- The `cv2.__version__` comparison (line 236) is left out. Both branches pass the same rotation and translation vectors on.
- Dictionary-ID validation by reflection (lines 142-152, 193) is left out. On a name `cv2.aruco` does not define, `dictionary_id` is unbound at line 193 and construction crashes. Any other `cv2.aruco` attribute binds it at line 144: a value that is not an integer is caught at line 147 after the check at line 145, and then makes line 193 raise; an integer constant passes the check and selects the predefined dictionary with that number. There is no fallback to model.
- Parameter declaration, retrieval and logging are left out. The model takes `marker_size`, `camera_frame` and the decoded `marker_map` text as inputs. A `marker_map` value that is not a string (`json.loads` raises `TypeError`) is not modelled.
- The assignment at line 114 is left out because every path that does not crash overwrites it (lines 121 and 126).
- The JSON parser is left out. Its result is a `JsonDoc`, whose `Object` case carries the decoded dictionary's items in order. Override values are modelled as `real`; non-numeric JSON values are not modelled.
- PyInt.ParseInt: models ASCII input only; Python's `int()` also accepts non-ASCII decimal digits and non-ASCII whitespace.
- Publishers, services, QoS depth and the executor in `main.py` are left out. `start_cb` and `stop_cb` only copy the boolean into the reply (`Output.Response`).
- Concurrency is left out. Events are a sequence applied one at a time, which matches the node's single mutually exclusive callback group. Messages already in flight when a subscription is destroyed are not modelled.
- The foreign routines in `Vision` are modelled as never raising. In the code an exception from pose solving, `cv2.Rodrigues` or the quaternion conversion (lines 237-252) escapes `image_callback`, and nothing is published for that frame; the model always publishes when IDs are present. Per-marker failure isolation does not exist in the code either.
- PyInt.ParseInt: follows CPython's default digit limit of 4300 digits (`MaxStrDigits`), in force since Python 3.11 and the September 2022 security releases of 3.7 to 3.10; older interpreters have no limit; a configured different `sys.set_int_max_str_digits` value is not modelled.
